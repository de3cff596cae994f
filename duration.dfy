/**
 * `parse_duration_to_seconds`: the `DURASI PENGERJAAN` cell is stripped and
 * searched (Python's `re.search`, case-sensitive) for the first match of
 *
 *     (\d+)\s*Hari\s*:\s*(\d+)\s*Jam\s*:\s*(\d+)\s*Menit\s*:\s*(\d+)\s*Detik
 *
 * and the four groups become `days*86400 + hours*3600 + minutes*60 + seconds`.
 * A missing cell, or a text without a complete match, gives no value; there is
 * no fallback.
 *
 * The regular expression is written as a list of tokens. `Derives` is what the
 * expression means (a text belongs to the language, with these group values);
 * `MatchFrom` is the greedy matcher the parser runs. The two are proved to
 * agree, so `ParseDuration` returns exactly the leftmost match of the regex.
 */
module Duration {
  import opened Wrappers
  import opened Text

  /** One piece of the pattern: a group `(\d+)`, a `\s*`, or a literal word. */
  datatype Token = Num | Spaces | Word(text: string)

  /** `\s*<w>\s*:\s*` */
  function Sep(w: string): seq<Token> {
    [Spaces, Word(w), Spaces, Word(":"), Spaces]
  }

  /** The pattern of dashboard.py line 49. */
  function Pattern(): seq<Token> {
    [Num] + (Sep("Hari") + ([Num] + (Sep("Jam") + ([Num] + (Sep("Menit") + ([Num] + [Spaces, Word("Detik")]))))))
  }

  function CountNums(pat: seq<Token>): nat {
    if pat == [] then 0 else (if pat[0].Num? then 1 else 0) + CountNums(pat[1..])
  }

  // ---------------------------------------------------------------------------
  // What the pattern means
  // ---------------------------------------------------------------------------

  /** The whole of `x` is an instance of `pat` whose groups read as `groups`. */
  ghost predicate Derives(x: string, pat: seq<Token>, groups: seq<nat>)
    decreases |pat|, |x|, 1
  {
    if pat == [] then x == [] && groups == []
    else match pat[0]
      case Word(w) => w <= x && Derives(x[|w|..], pat[1..], groups)
      case Spaces =>
        || Derives(x, pat[1..], groups)
        || (x != [] && IsSpace(x[0]) && Derives(x[1..], pat, groups))
      case Num => x != [] && IsDigit(x[0]) && DerivesNum(x[1..], DigitValue(x[0]), pat[1..], groups)
  }

  /** The rest of a `(\d+)` group that has read the value `acc` so far, followed by `rest`. */
  ghost predicate DerivesNum(x: string, acc: nat, rest: seq<Token>, groups: seq<nat>)
    decreases |rest| + 1, |x|, 0
  {
    || (groups != [] && groups[0] == acc && Derives(x, rest, groups[1..]))
    || (x != [] && IsDigit(x[0]) && DerivesNum(x[1..], acc * 10 + DigitValue(x[0]), rest, groups))
  }

  /** `re.search` sees an instance of the pattern at position `i` of `t`, `n` characters long. */
  ghost predicate MatchesAt(t: string, i: nat, n: nat, groups: seq<nat>) {
    i + n <= |t| && Derives(t[i..i + n], Pattern(), groups)
  }

  /** The match `re.search` reports: the instance at the smallest position. */
  ghost predicate IsFirstMatch(t: string, i: nat, n: nat, groups: seq<nat>) {
    && MatchesAt(t, i, n, groups)
    && forall i': nat, n': nat, g' :: i' < i ==> !MatchesAt(t, i', n', g')
  }

  // ---------------------------------------------------------------------------
  // The greedy matcher
  // ---------------------------------------------------------------------------

  /** A match: how many characters it spans and the values of its groups. */
  datatype Match = Match(len: nat, groups: seq<nat>)

  function Shift(k: nat, values: seq<nat>, m: Option<Match>): Option<Match> {
    match m
    case None => None
    case Some(Match(n, g)) => Some(Match(k + n, values + g))
  }

  /** Matches `pat` at the start of `s`, each group and each `\s*` taking as much as it can. */
  function MatchFrom(s: string, pat: seq<Token>): (r: Option<Match>)
    ensures r.Some? ==> r.value.len <= |s| && |r.value.groups| == CountNums(pat)
    decreases |pat|, |s|, 1
  {
    if pat == [] then Some(Match(0, []))
    else match pat[0]
      case Word(w) =>
        if w <= s then Shift(|w|, [], MatchFrom(s[|w|..], pat[1..])) else None
      case Spaces =>
        if s != [] && IsSpace(s[0]) then Shift(1, [], MatchFrom(s[1..], pat)) else MatchFrom(s, pat[1..])
      case Num =>
        if s != [] && IsDigit(s[0]) then Shift(1, [], MatchNum(s[1..], DigitValue(s[0]), pat[1..])) else None
  }

  /** Continues a group that has read `acc`, then matches `rest`. */
  function MatchNum(s: string, acc: nat, rest: seq<Token>): (r: Option<Match>)
    ensures r.Some? ==> r.value.len <= |s| && |r.value.groups| == CountNums(rest) + 1
    decreases |rest| + 1, |s|, 0
  {
    if s != [] && IsDigit(s[0]) then Shift(1, [], MatchNum(s[1..], acc * 10 + DigitValue(s[0]), rest))
    else Shift(0, [acc], MatchFrom(s, rest))
  }

  /** `re.search` from position `i` on: the first position where the pattern matches. */
  function SearchFrom(t: string, i: nat): (r: Option<(nat, Match)>)
    requires i <= |t|
    ensures r.Some? ==> r.value.0 <= |t| && |r.value.1.groups| == CountNums(Pattern())
    decreases |t| - i
  {
    match MatchFrom(t[i..], Pattern())
    case Some(m) => Some((i, m))
    case None => if i < |t| then SearchFrom(t, i + 1) else None
  }

  function Seconds(groups: seq<nat>): nat
    requires |groups| == 4
  {
    groups[0] * 86400 + groups[1] * 3600 + groups[2] * 60 + groups[3]
  }

  lemma CountNumsCons(t: Token, rest: seq<Token>)
    ensures CountNums([t] + rest) == (if t.Num? then 1 else 0) + CountNums(rest)
  {
    assert ([t] + rest)[1..] == rest;
  }

  lemma SepCount(w: string, rest: seq<Token>)
    ensures CountNums(Sep(w) + rest) == CountNums(rest)
  {
    assert Sep(w) + rest == [Spaces] + ([Word(w)] + ([Spaces] + ([Word(":")] + ([Spaces] + rest))));
    CountNumsCons(Spaces, rest);
    CountNumsCons(Word(":"), [Spaces] + rest);
    CountNumsCons(Spaces, [Word(":")] + ([Spaces] + rest));
    CountNumsCons(Word(w), [Spaces] + ([Word(":")] + ([Spaces] + rest)));
    CountNumsCons(Spaces, [Word(w)] + ([Spaces] + ([Word(":")] + ([Spaces] + rest))));
  }

  lemma PatternShape()
    ensures CountNums(Pattern()) == 4
  {
    var tail: seq<Token> := [Spaces, Word("Detik")];
    CountNumsCons(Word("Detik"), []);
    assert [Word("Detik")] + [] == [Word("Detik")];
    CountNumsCons(Spaces, [Word("Detik")]);
    assert [Spaces] + [Word("Detik")] == tail;
    var p4 := [Num] + tail;
    CountNumsCons(Num, tail);
    SepCount("Menit", p4);
    var p3 := [Num] + (Sep("Menit") + p4);
    CountNumsCons(Num, Sep("Menit") + p4);
    SepCount("Jam", p3);
    var p2 := [Num] + (Sep("Jam") + p3);
    CountNumsCons(Num, Sep("Jam") + p3);
    SepCount("Hari", p2);
    CountNumsCons(Num, Sep("Hari") + p2);
  }

  /** `parse_duration_to_seconds`; `None` stands for NaN. */
  function ParseDuration(cell: Option<string>): (r: Option<nat>)
    ensures cell.None? ==> r.None?
  {
    match cell
    case None => None
    case Some(raw) =>
      match SearchFrom(Strip(raw), 0)
      case None => None
      case Some((_, m)) => PatternShape(); Some(Seconds(m.groups))
  }

  // ---------------------------------------------------------------------------
  // The greedy matcher finds exactly the instances of the pattern
  // ---------------------------------------------------------------------------

  lemma {:induction false} MatchFromSound(s: string, pat: seq<Token>)
    requires MatchFrom(s, pat).Some?
    ensures Derives(s[..MatchFrom(s, pat).value.len], pat, MatchFrom(s, pat).value.groups)
    decreases |pat|, |s|, 1
  {
    var m := MatchFrom(s, pat).value;
    var x := s[..m.len];
    if pat != [] {
      match pat[0]
      case Word(w) =>
        var m' := MatchFrom(s[|w|..], pat[1..]).value;
        MatchFromSound(s[|w|..], pat[1..]);
        assert [] + m'.groups == m'.groups;
        assert m == Match(|w| + m'.len, m'.groups);
        assert x[..|w|] == w;
        assert x[|w|..] == s[|w|..][..m'.len];
      case Spaces =>
        if s != [] && IsSpace(s[0]) {
          var m' := MatchFrom(s[1..], pat).value;
          MatchFromSound(s[1..], pat);
          assert [] + m'.groups == m'.groups;
          assert m == Match(1 + m'.len, m'.groups);
          assert x[1..] == s[1..][..m'.len];
        } else {
          MatchFromSound(s, pat[1..]);
        }
      case Num =>
        var m' := MatchNum(s[1..], DigitValue(s[0]), pat[1..]).value;
        MatchNumSound(s[1..], DigitValue(s[0]), pat[1..]);
        assert [] + m'.groups == m'.groups;
        assert m == Match(1 + m'.len, m'.groups);
        assert x[1..] == s[1..][..m'.len];
    }
  }

  lemma {:induction false} MatchNumSound(s: string, acc: nat, rest: seq<Token>)
    requires MatchNum(s, acc, rest).Some?
    ensures DerivesNum(s[..MatchNum(s, acc, rest).value.len], acc, rest, MatchNum(s, acc, rest).value.groups)
    decreases |rest| + 1, |s|, 0
  {
    var m := MatchNum(s, acc, rest).value;
    var x := s[..m.len];
    if s != [] && IsDigit(s[0]) {
      var m' := MatchNum(s[1..], acc * 10 + DigitValue(s[0]), rest).value;
      MatchNumSound(s[1..], acc * 10 + DigitValue(s[0]), rest);
      assert [] + m'.groups == m'.groups;
      assert m == Match(1 + m'.len, m'.groups);
      assert x[1..] == s[1..][..m'.len];
    } else {
      var m' := MatchFrom(s, rest).value;
      MatchFromSound(s, rest);
      assert m.groups[1..] == m'.groups;
    }
  }

  /** Every instance of `pat` is non-empty and starts with a non-digit. */
  predicate NoLeadingDigit(pat: seq<Token>) {
    pat != [] &&
    match pat[0]
    case Word(w) => w != [] && !IsDigit(w[0])
    case Spaces => NoLeadingDigit(pat[1..])
    case Num => false
  }

  /** Every instance of `pat` is non-empty and starts with a non-space. */
  predicate NoLeadingSpace(pat: seq<Token>) {
    pat != [] &&
    match pat[0]
    case Word(w) => w != [] && !IsSpace(w[0])
    case Spaces => false
    case Num => true
  }

  /**
   * Whatever follows a group cannot start with a digit and whatever follows a
   * `\s*` cannot start with a space, so a greedy match never has to give back
   * characters: the regex engine's backtracking never changes the result.
   */
  predicate Unambiguous(pat: seq<Token>) {
    pat == [] ||
    (Unambiguous(pat[1..]) &&
     match pat[0]
     case Num => NoLeadingDigit(pat[1..])
     case Spaces => NoLeadingSpace(pat[1..])
     case Word(_) => true)
  }

  lemma {:induction false} LeadingNonDigit(x: string, pat: seq<Token>, g: seq<nat>)
    requires NoLeadingDigit(pat) && Derives(x, pat, g)
    ensures x != [] && !IsDigit(x[0])
    decreases |pat|
  {
    if pat[0].Spaces? && Derives(x, pat[1..], g) {
      LeadingNonDigit(x, pat[1..], g);
    } else if pat[0].Word? {
      assert x[0] == x[..|pat[0].text|][0];
    }
  }

  lemma LeadingNonSpace(x: string, pat: seq<Token>, g: seq<nat>)
    requires NoLeadingSpace(pat) && Derives(x, pat, g)
    ensures x != [] && !IsSpace(x[0])
  {
    if pat[0].Word? {
      assert x[0] == x[..|pat[0].text|][0];
    }
  }

  lemma {:induction false} MatchFromComplete(x: string, y: string, pat: seq<Token>, g: seq<nat>)
    requires Unambiguous(pat) && Derives(x, pat, g)
    ensures MatchFrom(x + y, pat) == Some(Match(|x|, g))
    decreases |pat|, |x|, 1
  {
    if pat == [] {
      assert x + y == y;
    } else {
      match pat[0]
      case Word(w) =>
        assert (x + y)[..|w|] == w;
        assert (x + y)[|w|..] == x[|w|..] + y;
        MatchFromComplete(x[|w|..], y, pat[1..], g);
        assert [] + g == g;
      case Spaces =>
        if Derives(x, pat[1..], g) {
          LeadingNonSpace(x, pat[1..], g);
          MatchFromComplete(x, y, pat[1..], g);
        } else {
          assert (x + y)[1..] == x[1..] + y;
          MatchFromComplete(x[1..], y, pat, g);
          assert [] + g == g;
        }
      case Num =>
        assert (x + y)[1..] == x[1..] + y;
        MatchNumComplete(x[1..], y, DigitValue(x[0]), pat[1..], g);
        assert [] + g == g;
    }
  }

  lemma {:induction false} MatchNumComplete(x: string, y: string, acc: nat, rest: seq<Token>, g: seq<nat>)
    requires Unambiguous(rest) && NoLeadingDigit(rest) && DerivesNum(x, acc, rest, g)
    ensures MatchNum(x + y, acc, rest) == Some(Match(|x|, g))
    decreases |rest| + 1, |x|, 0
  {
    if g != [] && g[0] == acc && Derives(x, rest, g[1..]) {
      LeadingNonDigit(x, rest, g[1..]);
      assert (x + y)[0] == x[0];
      MatchNumStops(x + y, acc, rest);
      MatchFromComplete(x, y, rest, g[1..]);
      assert [acc] + g[1..] == g;
    } else {
      assert (x + y)[0] == x[0];
      assert (x + y)[1..] == x[1..] + y;
      MatchNumReads(x + y, acc, rest);
      MatchNumComplete(x[1..], y, acc * 10 + DigitValue(x[0]), rest, g);
      assert [] + g == g;
    }
  }

  /** A group reads on while digits follow. */
  lemma MatchNumReads(s: string, acc: nat, rest: seq<Token>)
    requires s != [] && IsDigit(s[0])
    ensures MatchNum(s, acc, rest) == Shift(1, [], MatchNum(s[1..], acc * 10 + DigitValue(s[0]), rest))
  {
  }

  /** A group ends at the first non-digit, which the rest of the pattern then matches. */
  lemma MatchNumStops(s: string, acc: nat, rest: seq<Token>)
    requires !(s != [] && IsDigit(s[0]))
    ensures MatchNum(s, acc, rest) == Shift(0, [acc], MatchFrom(s, rest))
  {
  }

  lemma PatternUnambiguous()
    ensures Unambiguous(Pattern())
  {
    var tail := [Spaces, Word("Detik")];
    assert Unambiguous(tail) by { assert tail[1..] == [Word("Detik")]; }
    var p4 := [Num] + tail;
    assert p4[1..] == tail;
    var p3 := [Num] + (Sep("Menit") + p4);
    SepUnambiguous("Menit", p4);
    assert p3[1..] == Sep("Menit") + p4;
    var p2 := [Num] + (Sep("Jam") + p3);
    SepUnambiguous("Jam", p3);
    assert p2[1..] == Sep("Jam") + p3;
    var p1 := [Num] + (Sep("Hari") + p2);
    SepUnambiguous("Hari", p2);
    assert p1[1..] == Sep("Hari") + p2;
  }

  lemma SepUnambiguous(w: string, rest: seq<Token>)
    requires w != [] && !IsSpace(w[0]) && !IsDigit(w[0])
    requires Unambiguous(rest) && rest != [] && rest[0].Num?
    ensures Unambiguous(Sep(w) + rest) && NoLeadingDigit(Sep(w) + rest)
  {
    var p4 := [Spaces] + rest;
    assert p4[1..] == rest;
    assert NoLeadingSpace(rest);
    assert Unambiguous(p4);
    var p3 := [Word(":")] + p4;
    assert p3[1..] == p4;
    assert Unambiguous(p3);
    var p2 := [Spaces] + p3;
    assert p2[1..] == p3;
    assert NoLeadingSpace(p3);
    assert Unambiguous(p2);
    var p1 := [Word(w)] + p2;
    assert p1[1..] == p2;
    assert Unambiguous(p1);
    assert NoLeadingSpace(p1) && NoLeadingDigit(p1);
    var p0 := [Spaces] + p1;
    assert p0[1..] == p1;
    assert Unambiguous(p0) && NoLeadingDigit(p0);
    assert Sep(w) + rest == p0;
  }

  /** The pattern is found at `i` exactly when the greedy matcher succeeds there. */
  lemma MatchesAtIff(t: string, i: nat, n: nat, g: seq<nat>)
    requires i <= |t|
    ensures MatchesAt(t, i, n, g) <==> MatchFrom(t[i..], Pattern()) == Some(Match(n, g))
  {
    if MatchesAt(t, i, n, g) {
      PatternUnambiguous();
      assert t[i..] == t[i..i + n] + t[i + n..];
      MatchFromComplete(t[i..i + n], t[i + n..], Pattern(), g);
    }
    if MatchFrom(t[i..], Pattern()) == Some(Match(n, g)) {
      MatchFromSound(t[i..], Pattern());
      assert t[i..][..n] == t[i..i + n];
    }
  }

  /** No instance of the pattern starts at a position in `[a, b)`. */
  ghost predicate NoMatchBetween(t: string, a: nat, b: nat) {
    forall j: nat, n: nat, g :: a <= j < b ==> !MatchesAt(t, j, n, g)
  }

  /** `SearchFrom` reports the first position at or after `i` where the pattern matches. */
  lemma {:induction false} SearchFindsFirst(t: string, i: nat)
    requires i <= |t|
    ensures SearchFrom(t, i).None? ==> NoMatchBetween(t, i, |t| + 1)
    ensures SearchFrom(t, i).Some? ==>
      var (j, m) := SearchFrom(t, i).value;
      i <= j && MatchesAt(t, j, m.len, m.groups) && NoMatchBetween(t, i, j)
    decreases |t| - i
  {
    var here := MatchFrom(t[i..], Pattern());
    forall n: nat, g ensures MatchesAt(t, i, n, g) <==> here == Some(Match(n, g)) {
      MatchesAtIff(t, i, n, g);
    }
    if here.Some? {
      assert SearchFrom(t, i) == Some((i, here.value));
      assert MatchesAt(t, i, here.value.len, here.value.groups);
    } else if i < |t| {
      SearchFindsFirst(t, i + 1);
      assert SearchFrom(t, i) == SearchFrom(t, i + 1);
      var end := if SearchFrom(t, i).Some? then SearchFrom(t, i).value.0 else |t| + 1;
      assert NoMatchBetween(t, i + 1, end);
      forall j': nat, n: nat, g | i <= j' < end ensures !MatchesAt(t, j', n, g) {
        if j' == i {
          assert here != Some(Match(n, g));
        }
      }
    } else {
      assert SearchFrom(t, i).None?;
    }
  }

  // ---------------------------------------------------------------------------
  // What ParseDuration returns
  // ---------------------------------------------------------------------------

  /** No value exactly when the stripped text holds no instance of the pattern anywhere. */
  lemma ParseAbsentIffNoMatch(raw: string)
    ensures ParseDuration(Some(raw)).None? <==> forall i: nat, n: nat, g :: !MatchesAt(Strip(raw), i, n, g)
  {
    var t := Strip(raw);
    SearchFindsFirst(t, 0);
    if SearchFrom(t, 0).None? {
      assert NoMatchBetween(t, 0, |t| + 1);
      forall i: nat, n: nat, g ensures !MatchesAt(t, i, n, g) {
        if i <= |t| {
          assert 0 <= i < |t| + 1;
        }
      }
    } else {
      var (j, m) := SearchFrom(t, 0).value;
      assert MatchesAt(t, j, m.len, m.groups);
    }
  }

  /** A value is the seconds of the first instance of the pattern in the stripped text. */
  lemma ParseIsFirstMatch(raw: string)
    requires ParseDuration(Some(raw)).Some?
    ensures exists i: nat, n: nat, g :: IsFirstMatch(Strip(raw), i, n, g) && |g| == 4 && ParseDuration(Some(raw)).value == Seconds(g)
  {
    var t := Strip(raw);
    SearchFindsFirst(t, 0);
    PatternShape();
    var (i, m) := SearchFrom(t, 0).value;
    assert IsFirstMatch(t, i, m.len, m.groups);
  }

  /** And conversely: the first instance of the pattern decides the value. */
  lemma FirstMatchIsParsed(raw: string, i: nat, n: nat, g: seq<nat>)
    requires IsFirstMatch(Strip(raw), i, n, g)
    ensures |g| == 4 && ParseDuration(Some(raw)) == Some(Seconds(g))
  {
    var t := Strip(raw);
    SearchFindsFirst(t, 0);
    PatternShape();
    MatchesAtIff(t, i, n, g);
    assert SearchFrom(t, 0).Some?;
    var (j, m) := SearchFrom(t, 0).value;
    MatchesAtIff(t, j, m.len, m.groups);
    assert !(j < i);
    assert !(i < j);
    assert m == Match(n, g);
  }

  /** `w` appears in `x` at position `k`. */
  predicate OccursAt(w: string, x: string, k: nat) {
    k + |w| <= |x| && x[k..k + |w|] == w
  }

  /** `w` appears somewhere in `x`. */
  ghost predicate Occurs(w: string, x: string) {
    exists k: nat :: OccursAt(w, x, k)
  }

  lemma OccursInSlice(w: string, x: string, a: nat, b: nat)
    requires a <= b <= |x| && Occurs(w, x[a..b])
    ensures Occurs(w, x)
  {
    var k: nat :| OccursAt(w, x[a..b], k);
    forall i | 0 <= i < |w| ensures x[a + k..a + k + |w|][i] == w[i] {
      assert w[i] == x[a..b][k + i];
    }
    assert OccursAt(w, x, a + k);
  }

  lemma OccursInSuffix(w: string, x: string, d: nat)
    requires d <= |x| && Occurs(w, x[d..])
    ensures Occurs(w, x)
  {
    assert x[d..] == x[d..|x|];
    OccursInSlice(w, x, d, |x|);
  }

  /** Every literal word of a pattern occurs in each of its instances. */
  lemma {:induction false} DerivesHasWord(x: string, pat: seq<Token>, g: seq<nat>, j: nat)
    requires Derives(x, pat, g) && j < |pat| && pat[j].Word?
    ensures Occurs(pat[j].text, x)
    decreases |pat|, |x|, 1
  {
    match pat[0]
    case Word(w) =>
      if j == 0 {
        assert OccursAt(w, x, 0);
      } else {
        DerivesHasWord(x[|w|..], pat[1..], g, j - 1);
        OccursInSuffix(pat[j].text, x, |w|);
      }
    case Spaces =>
      if Derives(x, pat[1..], g) {
        DerivesHasWord(x, pat[1..], g, j - 1);
      } else {
        DerivesHasWord(x[1..], pat, g, j);
        OccursInSuffix(pat[j].text, x, 1);
      }
    case Num =>
      DerivesNumHasWord(x[1..], DigitValue(x[0]), pat[1..], g, j - 1);
      OccursInSuffix(pat[j].text, x, 1);
  }

  lemma {:induction false} DerivesNumHasWord(x: string, acc: nat, rest: seq<Token>, g: seq<nat>, j: nat)
    requires DerivesNum(x, acc, rest, g) && j < |rest| && rest[j].Word?
    ensures Occurs(rest[j].text, x)
    decreases |rest| + 1, |x|, 0
  {
    if g != [] && g[0] == acc && Derives(x, rest, g[1..]) {
      DerivesHasWord(x, rest, g[1..], j);
    } else {
      DerivesNumHasWord(x[1..], acc * 10 + DigitValue(x[0]), rest, g, j);
      OccursInSuffix(rest[j].text, x, 1);
    }
  }

  /** A word that occurs in the stripped text occurs in the text. */
  lemma OccursStripped(w: string, raw: string)
    requires Occurs(w, Strip(raw))
    ensures Occurs(w, raw)
  {
    var l := TrimLeft(raw);
    var off := |raw| - |l|;
    assert Strip(raw) == l[..|Strip(raw)|];
    OccursInSlice(w, l, 0, |Strip(raw)|);
    assert l == raw[off..];
    OccursInSuffix(w, raw, off);
  }

  /** A text without one of the pattern's words holds no instance of the pattern. */
  lemma NoInstanceWithoutWord(t: string, j: nat)
    requires j < |Pattern()| && Pattern()[j].Word? && !Occurs(Pattern()[j].text, t)
    ensures forall i: nat, n: nat, g :: !MatchesAt(t, i, n, g)
  {
    forall i: nat, n: nat, g | MatchesAt(t, i, n, g) ensures false {
      DerivesHasWord(t[i..i + n], Pattern(), g, j);
      OccursInSlice(Pattern()[j].text, t, i, i + n);
    }
  }

  /**
   * A text in which one of the pattern's words does not appear (a missing
   * unit, or a unit in another letter case) has no value.
   */
  lemma MissingWordNoDuration(raw: string, j: nat)
    requires j < |Pattern()| && Pattern()[j].Word? && !Occurs(Pattern()[j].text, raw)
    ensures ParseDuration(Some(raw)).None?
  {
    if Occurs(Pattern()[j].text, Strip(raw)) {
      OccursStripped(Pattern()[j].text, raw);
    }
    NoInstanceWithoutWord(Strip(raw), j);
    ParseAbsentIffNoMatch(raw);
  }

  lemma HariStartsWithLetter(raw: string, k: nat)
    requires OccursAt("Hari", raw, k)
    ensures raw[k] == 'H'
  {
    assert raw[k] == raw[k..k + 4][0];
  }

  /** There is no fallback: a bare number such as `"42"` has no value. */
  lemma DigitsOnlyNoDuration(raw: string)
    requires AllDigits(raw)
    ensures ParseDuration(Some(raw)).None?
  {
    assert Pattern()[2] == Word("Hari");
    forall k: nat | OccursAt("Hari", raw, k) ensures false {
      HariStartsWithLetter(raw, k);
    }
    MissingWordNoDuration(raw, 2);
  }

  // ---------------------------------------------------------------------------
  // Durations written in the expected format are read back
  // ---------------------------------------------------------------------------

  function SepText(w: string): string {
    " " + w + " : "
  }

  /** The format `'<d> Hari : <h> Jam : <m> Menit : <s> Detik'` of the docstring. */
  function Render(d: nat, h: nat, m: nat, s: nat): string {
    Decimal(d) + (SepText("Hari") + (Decimal(h) + (SepText("Jam") + (Decimal(m) + (SepText("Menit") + (Decimal(s) + " Detik"))))))
  }

  lemma {:induction false} DerivesDigits(ds: string, z: string, acc: nat, rest: seq<Token>, g: seq<nat>)
    requires AllDigits(ds) && Derives(z, rest, g)
    ensures DerivesNum(ds + z, acc, rest, [ReadDigits(acc, ds)] + g)
    decreases |ds|
  {
    if ds == [] {
      assert ds + z == z;
      assert ([acc] + g)[1..] == g;
    } else {
      assert (ds + z)[1..] == ds[1..] + z;
      DerivesDigits(ds[1..], z, acc * 10 + DigitValue(ds[0]), rest, g);
    }
  }

  lemma DerivesNumber(n: nat, z: string, rest: seq<Token>, g: seq<nat>)
    requires Derives(z, rest, g)
    ensures Derives(Decimal(n) + z, [Num] + rest, [n] + g)
  {
    var ds := Decimal(n);
    ReadDecimal(n);
    DerivesDigits(ds[1..], z, DigitValue(ds[0]), rest, g);
    assert (ds + z)[1..] == ds[1..] + z;
    assert ([Num] + rest)[1..] == rest;
  }

  lemma DerivesWord(w: string, z: string, rest: seq<Token>, g: seq<nat>)
    requires Derives(z, rest, g)
    ensures Derives(w + z, [Word(w)] + rest, g)
  {
    assert (w + z)[|w|..] == z;
    assert ([Word(w)] + rest)[1..] == rest;
  }

  lemma DerivesSpace(z: string, rest: seq<Token>, g: seq<nat>)
    requires Derives(z, rest, g)
    ensures Derives(" " + z, [Spaces] + rest, g)
  {
    var p := [Spaces] + rest;
    assert p[1..] == rest;
    assert Derives(z, p, g);
    assert (" " + z)[1..] == z;
  }

  lemma DerivesSep(w: string, z: string, rest: seq<Token>, g: seq<nat>)
    requires Derives(z, rest, g)
    ensures Derives(SepText(w) + z, Sep(w) + rest, g)
  {
    DerivesSpace(z, rest, g);
    DerivesWord(":", " " + z, [Spaces] + rest, g);
    DerivesSpace(":" + (" " + z), [Word(":")] + ([Spaces] + rest), g);
    DerivesWord(w, " " + (":" + (" " + z)), [Spaces] + ([Word(":")] + ([Spaces] + rest)), g);
    DerivesSpace(w + (" " + (":" + (" " + z))), [Word(w)] + ([Spaces] + ([Word(":")] + ([Spaces] + rest))), g);
    assert SepText(w) + z == " " + (w + (" " + (":" + (" " + z))));
    assert Sep(w) + rest == [Spaces] + ([Word(w)] + ([Spaces] + ([Word(":")] + ([Spaces] + rest))));
  }

  lemma RenderDerives(d: nat, h: nat, m: nat, s: nat)
    ensures Derives(Render(d, h, m, s), Pattern(), [d, h, m, s])
  {
    assert Derives([], [], []);
    DerivesWord("Detik", [], [], []);
    assert "Detik" + [] == "Detik";
    DerivesSpace("Detik", [Word("Detik")], []);
    assert [Spaces] + [Word("Detik")] == [Spaces, Word("Detik")];
    DerivesNumber(s, " Detik", [Spaces, Word("Detik")], []);
    var g4 := [s] + [];
    var x4 := Decimal(s) + " Detik";
    var p4 := [Num] + [Spaces, Word("Detik")];
    DerivesSep("Menit", x4, p4, g4);
    DerivesNumber(m, SepText("Menit") + x4, Sep("Menit") + p4, g4);
    var x3 := Decimal(m) + (SepText("Menit") + x4);
    var p3 := [Num] + (Sep("Menit") + p4);
    var g3 := [m] + g4;
    DerivesSep("Jam", x3, p3, g3);
    DerivesNumber(h, SepText("Jam") + x3, Sep("Jam") + p3, g3);
    var x2 := Decimal(h) + (SepText("Jam") + x3);
    var p2 := [Num] + (Sep("Jam") + p3);
    var g2 := [h] + g3;
    DerivesSep("Hari", x2, p2, g2);
    DerivesNumber(d, SepText("Hari") + x2, Sep("Hari") + p2, g2);
    FourGroups(d, h, m, s);
  }

  lemma FourGroups(d: nat, h: nat, m: nat, s: nat)
    ensures [d] + ([h] + ([m] + ([s] + []))) == [d, h, m, s]
  {
  }

  /** An instance of the pattern starts with a digit. */
  lemma InstanceStartsWithDigit(t: string, i: nat, n: nat, g: seq<nat>)
    requires MatchesAt(t, i, n, g)
    ensures i < |t| && IsDigit(t[i])
  {
    assert Pattern()[0] == Num;
    assert t[i..i + n][0] == t[i];
  }

  lemma RenderEnds(d: nat, h: nat, m: nat, s: nat)
    ensures var r := Render(d, h, m, s); r != [] && IsDigit(r[0]) && r[|r| - 1] == 'k'
  {
    var x7 := Decimal(s) + " Detik";
    var x6 := SepText("Menit") + x7;
    var x5 := Decimal(m) + x6;
    var x4 := SepText("Jam") + x5;
    var x3 := Decimal(h) + x4;
    var x2 := SepText("Hari") + x3;
    var r := Decimal(d) + x2;
    assert r == Render(d, h, m, s);
    assert x7[|x7| - 1] == 'k';
    assert x6[|x6| - 1] == 'k';
    assert x5[|x5| - 1] == 'k';
    assert x4[|x4| - 1] == 'k';
    assert x3[|x3| - 1] == 'k';
    assert x2[|x2| - 1] == 'k';
    assert r[|r| - 1] == 'k';
    assert r[0] == Decimal(d)[0];
  }

  /**
   * An instance of the pattern that begins and ends with a non-space, behind a
   * text without digits, is the match the parser reads, whatever follows it.
   */
  lemma ParseInstance(pre: string, r: string, post: string, g: seq<nat>)
    requires forall k :: 0 <= k < |pre| ==> !IsDigit(pre[k])
    requires r != [] && !IsSpace(r[0]) && !IsSpace(r[|r| - 1])
    requires Derives(r, Pattern(), g)
    ensures |g| == 4 && ParseDuration(Some(pre + r + post)) == Some(Seconds(g))
  {
    var p := TrimLeft(pre);
    var t := p + r + TrimRight(post);
    StripAround(pre, r, post);
    InstanceInContext(p, r, TrimRight(post), g);
    NoInstanceInPrefix(pre, p, t);
    assert IsFirstMatch(Strip(pre + r + post), |p|, |r|, g);
    FirstMatchIsParsed(pre + r + post, |p|, |r|, g);
  }

  /** An instance keeps matching, at its own position, once text is put around it. */
  lemma InstanceInContext(p: string, r: string, q: string, g: seq<nat>)
    requires Derives(r, Pattern(), g)
    ensures MatchesAt(p + r + q, |p|, |r|, g)
  {
    assert (p + r + q)[|p|..|p| + |r|] == r;
  }

  /** No instance starts inside a digit-free prefix, since every instance starts with a digit. */
  lemma NoInstanceInPrefix(pre: string, p: string, t: string)
    requires forall k :: 0 <= k < |pre| ==> !IsDigit(pre[k])
    requires |p| <= |pre| && p == pre[|pre| - |p|..] && p <= t
    ensures forall i: nat, n: nat, g: seq<nat> :: i < |p| ==> !MatchesAt(t, i, n, g)
  {
    forall i: nat, n: nat, g: seq<nat> | i < |p| ensures !MatchesAt(t, i, n, g) {
      assert t[i] == p[i] == pre[|pre| - |p| + i];
      if MatchesAt(t, i, n, g) {
        InstanceStartsWithDigit(t, i, n, g);
      }
    }
  }

  /**
   * A duration written as `'<d> Hari : <h> Jam : <m> Menit : <s> Detik'`, behind
   * any text without digits and before any text at all, parses to
   * `d*86400 + h*3600 + m*60 + s`.
   */
  lemma ParseRendered(pre: string, d: nat, h: nat, m: nat, s: nat, post: string)
    requires forall k :: 0 <= k < |pre| ==> !IsDigit(pre[k])
    ensures ParseDuration(Some(pre + Render(d, h, m, s) + post)) == Some(d * 86400 + h * 3600 + m * 60 + s)
  {
    var r := Render(d, h, m, s);
    RenderEnds(d, h, m, s);
    assert r != [] && !IsSpace(r[0]) && !IsSpace(r[|r| - 1]);
    RenderDerives(d, h, m, s);
    ParseInstance(pre, r, post, [d, h, m, s]);
    SecondsOf(ParseDuration(Some(pre + r + post)), d, h, m, s);
  }

  lemma SecondsOf(v: Option<nat>, d: nat, h: nat, m: nat, s: nat)
    requires v == Some(Seconds([d, h, m, s]))
    ensures v == Some(d * 86400 + h * 3600 + m * 60 + s)
  {
    assert Seconds([d, h, m, s]) == d * 86400 + h * 3600 + m * 60 + s;
  }

  lemma ParseRenderedAlone(d: nat, h: nat, m: nat, s: nat)
    ensures ParseDuration(Some(Render(d, h, m, s))) == Some(d * 86400 + h * 3600 + m * 60 + s)
  {
    var none: string := [];
    ParseRendered(none, d, h, m, s, none);
    NothingAround(Render(d, h, m, s));
  }

  lemma NothingAround(x: string)
    ensures [] + x + [] == x
  {
  }

  /**
   * The docstring's example, `'0 Hari : 20 Jam : 41 Menit : 56 Detik'` (written
   * here field by field), is 74516 seconds.
   */
  lemma DocstringExample()
    ensures ParseDuration(Some("0 Hari : " + "20 Jam : " + "41 Menit : " + "56 Detik")) == Some(74516)
  {
    ParseRenderedAlone(0, 20, 41, 56);
    DocstringText();
  }

  lemma DocstringText()
    ensures Render(0, 20, 41, 56) == "0 Hari : " + "20 Jam : " + "41 Menit : " + "56 Detik"
  {
    DocstringNumbers();
    DocstringSeps();
    assert "0" + " Hari : " == "0 Hari : ";
    assert "20" + " Jam : " == "20 Jam : ";
    assert "41" + " Menit : " == "41 Menit : ";
    assert "56" + " Detik" == "56 Detik";
    Regroup("0", " Hari : ", "20", " Jam : ", "41", " Menit : ", "56", " Detik");
  }

  /** Regrouping a chain of concatenations field by field. */
  lemma Regroup(a: string, b: string, c: string, d: string, e: string, f: string, g: string, h: string)
    ensures a + (b + (c + (d + (e + (f + (g + h)))))) == (a + b) + (c + d) + (e + f) + (g + h)
  {
  }

  lemma DocstringNumbers()
    ensures Decimal(0) == "0" && Decimal(20) == "20" && Decimal(41) == "41" && Decimal(56) == "56"
  {
    assert Decimal(2) == "2" && Decimal(4) == "4" && Decimal(5) == "5";
  }

  lemma DocstringSeps()
    ensures SepText("Hari") == " Hari : " && SepText("Jam") == " Jam : " && SepText("Menit") == " Menit : "
  {
  }
}
