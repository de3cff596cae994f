/**
 * Repeated-call detection: the frame is sorted by report time, and a row is a
 * rapid repeat when the previous row of the same UID, in that order, was
 * reported at most two minutes earlier.
 */
module Spam {
  import opened Wrappers
  import opened Records

  /** The order of `sort_values('WAKTU LAPOR')`: earlier first, missing times (NaT) last. */
  predicate TimeLeq(a: Option<int>, b: Option<int>) {
    b.None? || (a.Some? && a.value <= b.value)
  }

  predicate SortedByTime(rs: seq<Report>) {
    forall i, j :: 0 <= i < j < |rs| ==> TimeLeq(rs[i].time, rs[j].time)
  }

  function InsertByTime(r: Report, rs: seq<Report>): (out: seq<Report>)
    requires SortedByTime(rs)
    ensures SortedByTime(out)
    ensures multiset(out) == multiset(rs) + multiset{r}
  {
    if rs == [] then [r]
    else if TimeLeq(r.time, rs[0].time) then
      SortedCons(r, rs);
      [r] + rs
    else
      SortedTail(rs);
      var tail := InsertByTime(r, rs[1..]);
      assert rs == [rs[0]] + rs[1..];
      forall x | x in tail ensures TimeLeq(rs[0].time, x.time) {
        assert x in multiset(tail);
        assert x == r || x in rs[1..];
      }
      SortedCons(rs[0], tail);
      [rs[0]] + tail
  }

  lemma SortedTail(rs: seq<Report>)
    requires rs != [] && SortedByTime(rs)
    ensures SortedByTime(rs[1..])
  {
    forall i, j | 0 <= i < j < |rs| - 1 ensures TimeLeq(rs[1..][i].time, rs[1..][j].time) {
      assert rs[1..][i] == rs[i + 1] && rs[1..][j] == rs[j + 1];
    }
  }

  /** A row no later than every row of a sorted sequence can go in front of it. */
  lemma SortedCons(x: Report, rs: seq<Report>)
    requires SortedByTime(rs)
    requires (forall y :: y in rs ==> TimeLeq(x.time, y.time)) || (rs != [] && TimeLeq(x.time, rs[0].time))
    ensures SortedByTime([x] + rs)
  {
    var out := [x] + rs;
    forall i, j | 0 <= i < j < |out| ensures TimeLeq(out[i].time, out[j].time) {
      assert out[j] == rs[j - 1];
      if i == 0 {
        assert rs[j - 1] in rs;
        assert TimeLeq(x.time, rs[0].time) ==> TimeLeq(rs[0].time, rs[j - 1].time);
      } else {
        assert out[i] == rs[i - 1];
      }
    }
  }

  /**
   * The frame in report-time order. Equal times may come out in any order in
   * pandas; this definition keeps them in input order, which is one of the
   * orders pandas may produce.
   */
  function SortByTime(rs: seq<Report>): (out: seq<Report>)
    ensures SortedByTime(out)
    ensures multiset(out) == multiset(rs)
    ensures |out| == |rs|
  {
    if rs == [] then []
    else
      assert rs == [rs[0]] + rs[1..];
      var out := InsertByTime(rs[0], SortByTime(rs[1..]));
      assert |out| == |multiset(out)|;
      out
  }

  /** The index of the last row before `k` whose UID is `u`: the row `groupby('UID').shift(1)` reads. */
  function LastWithUid(rs: seq<Report>, u: string, k: nat): (j: Option<nat>)
    requires k <= |rs|
    ensures j.Some? ==> j.value < k && rs[j.value].uid == Some(u)
    ensures j.Some? ==> forall i :: j.value < i < k ==> rs[i].uid != Some(u)
    ensures j.None? ==> forall i :: 0 <= i < k ==> rs[i].uid != Some(u)
  {
    if k == 0 then None
    else if rs[k - 1].uid == Some(u) then Some(k - 1)
    else LastWithUid(rs, u, k - 1)
  }

  /**
   * `rapid_repeat` of row `k`: the row has a UID and a time, its UID's previous
   * row has a time too, and the gap is at most 120 seconds (`diff_min <= 2`).
   */
  predicate RapidAt(rs: seq<Report>, k: nat)
    requires k < |rs|
  {
    match rs[k].uid
    case None => false
    case Some(u) =>
      match LastWithUid(rs, u, k)
      case None => false
      case Some(j) =>
        rs[k].time.Some? && rs[j].time.Some? && rs[k].time.value - rs[j].time.value <= 120
  }

  /** Every row with its `rapid_repeat` flag set from its position in `rs`. */
  function WithRapid(rs: seq<Report>): (out: seq<Report>)
    ensures |out| == |rs|
    ensures forall k :: 0 <= k < |rs| ==> out[k] == rs[k].(rapidRepeat := RapidAt(rs, k))
  {
    seq(|rs|, k requires 0 <= k < |rs| => rs[k].(rapidRepeat := RapidAt(rs, k)))
  }

  /** The time of the previous row of UID `u` before position `k`, as `shift(1)` gives it. */
  function PreviousTime(rs: seq<Report>, u: string, k: nat): Option<Option<int>>
    requires k <= |rs|
  {
    match LastWithUid(rs, u, k)
    case None => None
    case Some(j) => Some(rs[j].time)
  }

  /** What the scan knows after `i` rows: the previous time of every UID seen so far. */
  ghost predicate Remembers(rs: seq<Report>, i: nat, last: map<string, Option<int>>)
    requires i <= |rs|
  {
    forall u :: (u in last <==> PreviousTime(rs, u, i).Some?) &&
                (u in last ==> PreviousTime(rs, u, i) == Some(last[u]))
  }

  lemma RememberStep(rs: seq<Report>, i: nat, last: map<string, Option<int>>)
    requires i < |rs| && Remembers(rs, i, last)
    ensures rs[i].uid.None? ==> Remembers(rs, i + 1, last)
    ensures rs[i].uid.Some? ==> Remembers(rs, i + 1, last[rs[i].uid.value := rs[i].time])
  {
    forall u ensures PreviousTime(rs, u, i + 1) ==
      if rs[i].uid == Some(u) then Some(rs[i].time) else PreviousTime(rs, u, i)
    {
    }
  }

  lemma RapidFromMemory(rs: seq<Report>, i: nat, last: map<string, Option<int>>)
    requires i < |rs| && Remembers(rs, i, last) && rs[i].uid.Some?
    ensures var u := rs[i].uid.value;
      RapidAt(rs, i) <==>
        u in last && rs[i].time.Some? && last[u].Some? && rs[i].time.value - last[u].value <= 120
  {
    assert PreviousTime(rs, rs[i].uid.value, i).Some? <==> rs[i].uid.value in last;
  }

  /**
   * One step of the scan over row `i`: its flag, from the remembered previous
   * time of its UID, and the memory updated with the row's own time.
   */
  method ScanRow(ghost rs: seq<Report>, ghost i: nat, r: Report, last: map<string, Option<int>>)
      returns (rapid: bool, next: map<string, Option<int>>)
    requires i < |rs| && rs[i] == r && Remembers(rs, i, last)
    ensures rapid == RapidAt(rs, i)
    ensures Remembers(rs, i + 1, next)
  {
    rapid := false;
    next := last;
    RememberStep(rs, i, last);
    if r.uid.Some? {
      var u := r.uid.value;
      RapidFromMemory(rs, i, last);
      if u in last && r.time.Some? && last[u].Some? {
        rapid := r.time.value - last[u].value <= 120;
      }
      next := last[u := r.time];
    }
  }

  /** The frame part-way through the scan: the first `i` rows flagged, the others as they were. */
  function FlaggedUpTo(rs: seq<Report>, i: nat): seq<Report>
    requires i <= |rs|
  {
    WithRapid(rs)[..i] + rs[i..]
  }

  /** The scan starts on the frame as it was, with nothing remembered, and ends on every row flagged. */
  lemma ScanEnds(rs: seq<Report>)
    ensures FlaggedUpTo(rs, 0) == rs && FlaggedUpTo(rs, |rs|) == WithRapid(rs)
    ensures Remembers(rs, 0, map[])
  {
    assert rs[|rs|..] == [];
  }

  /** The grouped previous-row scan: one pass, remembering the last time seen for every UID. */
  method MarkRapidRepeats(a: array<Report>)
    modifies a
    ensures a[..] == WithRapid(old(a[..]))
  {
    ghost var rs := a[..];
    ScanEnds(rs);
    var last: map<string, Option<int>> := map[];
    var i := 0;
    while i < a.Length
      invariant 0 <= i <= a.Length == |rs|
      invariant a[..] == FlaggedUpTo(rs, i)
      invariant Remembers(rs, i, last)
    {
      last := FlagRow(a, rs, i, last);
      i := i + 1;
    }
  }

  /** The loop body of the scan: sets the flag of row `i` and moves the memory past it. */
  method FlagRow(a: array<Report>, ghost rs: seq<Report>, i: nat, last: map<string, Option<int>>)
      returns (next: map<string, Option<int>>)
    modifies a
    requires i < a.Length == |rs| && a[..] == FlaggedUpTo(rs, i) && Remembers(rs, i, last)
    ensures a[..] == FlaggedUpTo(rs, i + 1) && Remembers(rs, i + 1, next)
  {
    ghost var before := a[..];
    var rapid;
    FlagStep(rs, before, i, RapidAt(rs, i));
    rapid, next := ScanRow(rs, i, a[i], last);
    a[i] := a[i].(rapidRepeat := rapid);
    assert a[..] == before[i := rs[i].(rapidRepeat := rapid)];
  }

  /** Flagging row `i` of a frame whose first `i` rows are flagged flags `i + 1` rows. */
  lemma FlagStep(rs: seq<Report>, before: seq<Report>, i: nat, rapid: bool)
    requires i < |rs| && before == WithRapid(rs)[..i] + rs[i..] && rapid == RapidAt(rs, i)
    ensures before[i] == rs[i]
    ensures before[i := rs[i].(rapidRepeat := rapid)] == WithRapid(rs)[..i + 1] + rs[i + 1..]
  {
    var want := WithRapid(rs);
    assert before[i] == rs[i..][0];
    var after := before[i := rs[i].(rapidRepeat := rapid)];
    forall k | 0 <= k < |rs| ensures after[k] == (want[..i + 1] + rs[i + 1..])[k] {
      if k < i {
        assert after[k] == before[k] == want[..i][k];
      }
    }
  }

  /**
   * A row is a rapid repeat exactly when some earlier row has its UID, no row
   * in between has it, both rows have a time, and the gap is at most 120 s.
   */
  lemma RapidIff(rs: seq<Report>, k: nat)
    requires k < |rs|
    ensures RapidAt(rs, k) <==>
      exists j :: 0 <= j < k && rs[k].uid.Some? && rs[j].uid == rs[k].uid
        && (forall i :: j < i < k ==> rs[i].uid != rs[k].uid)
        && rs[k].time.Some? && rs[j].time.Some? && rs[k].time.value - rs[j].time.value <= 120
  {
    if RapidAt(rs, k) {
      var j := LastWithUid(rs, rs[k].uid.value, k).value;
      assert 0 <= j < k && rs[j].uid == rs[k].uid;
    } else if rs[k].uid.Some? {
      var u := rs[k].uid.value;
      forall j | 0 <= j < k && rs[j].uid == rs[k].uid && (forall i :: j < i < k ==> rs[i].uid != rs[k].uid)
        ensures !(rs[k].time.Some? && rs[j].time.Some? && rs[k].time.value - rs[j].time.value <= 120)
      {
        var last := LastWithUid(rs, u, k);
        assert last.Some?;
        assert last.value == j;
      }
    }
  }

  /** The first row of a UID, a row without a time and a row without a UID are never rapid repeats. */
  lemma NotRapid(rs: seq<Report>, k: nat)
    requires k < |rs|
    requires rs[k].uid.None? || rs[k].time.None? || forall j :: 0 <= j < k ==> rs[j].uid != rs[k].uid
    ensures !RapidAt(rs, k)
  {
    RapidIff(rs, k);
  }

  /** In time order the gap of a rapid repeat lies between 0 and 120 seconds. */
  lemma RapidGapInSortedOrder(rs: seq<Report>, k: nat)
    requires k < |rs| && SortedByTime(rs) && RapidAt(rs, k)
    ensures exists j :: 0 <= j < k && rs[j].uid == rs[k].uid && rs[j].time.Some? &&
                        0 <= rs[k].time.value - rs[j].time.value <= 120
  {
    var j := LastWithUid(rs, rs[k].uid.value, k).value;
    assert TimeLeq(rs[j].time, rs[k].time);
  }

  /** Setting the flags changes nothing else about a row, so it keeps the row's facts. */
  lemma WithRapidKeepsRows(cols: set<Column>, rs: seq<Report>)
    requires forall r :: r in rs ==> WellFormed(cols, r)
    ensures forall r :: r in WithRapid(rs) ==> WellFormed(cols, r)
  {
    var out := WithRapid(rs);
    forall r | r in out ensures WellFormed(cols, r) {
      var k :| 0 <= k < |out| && out[k] == r;
      assert rs[k] in rs;
    }
  }

  /**
   * Three calls from one UID at 0, 60 and 180 seconds: the second is 60 s
   * after the first and the third exactly 120 s after the second, so both
   * are rapid repeats; the first is not.
   */
  lemma ThreeCallsExample(r: Report, u: string)
    requires r.uid == Some(u)
    ensures var rs := [r.(time := Some(0)), r.(time := Some(60)), r.(time := Some(180))];
      WithRapid(rs) == [rs[0].(rapidRepeat := false), rs[1].(rapidRepeat := true), rs[2].(rapidRepeat := true)]
  {
    var rs := [r.(time := Some(0)), r.(time := Some(60)), r.(time := Some(180))];
    assert LastWithUid(rs, u, 0) == None;
    assert LastWithUid(rs, u, 1) == Some(0);
    assert LastWithUid(rs, u, 2) == Some(1);
  }
}
