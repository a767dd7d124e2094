/** Business hours: parsing, normalisation to sorted disjoint windows, and the question whether a minute is inside. */
module BusinessHours {
  import opened Outcomes

  const WEEKDAYS := ["mon", "tue", "wed", "thu", "fri", "sat", "sun"]
  const MAX_WINDOWS := 8

  /** A window as configured. A time that is not a string is None. */
  datatype RawWindow = NotObject | WrongKeys | Times(start: Option<string>, end: Option<string>)
  datatype RawDay = Null | NotList | Windows(windows: seq<RawWindow>)
  type RawHours = map<string, RawDay>

  /** A parsed window with the texts it came from. */
  datatype Window = Window(start: nat, end: nat, rawStart: string, rawEnd: string)
  type Hours = map<string, seq<Window>>

  // ---------------------------------------------------------------- parsing

  predicate IsDigit(c: char) {
    '0' <= c <= '9'
  }

  function TwoDigits(a: char, b: char): nat
    requires IsDigit(a) && IsDigit(b)
  {
    (a as int - '0' as int) * 10 + (b as int - '0' as int)
  }

  /** _parse_clock: HH:MM as minutes of the day. */
  function ParseClock(value: Option<string>): Result<nat> {
    if value.None? || |value.value| != 5 || value.value[2] != ':' then Err("Business-hour times must use HH:MM")
    else
      var s := value.value;
      if !IsDigit(s[0]) || !IsDigit(s[1]) || !IsDigit(s[3]) || !IsDigit(s[4]) then Err("Business-hour times must use HH:MM")
      else
        var hour, minute := TwoDigits(s[0], s[1]), TwoDigits(s[3], s[4]);
        if hour > 23 || minute > 59 then Err("Business-hour time is out of range") else Ok(hour * 60 + minute)
  }

  function ParseWindow(raw: RawWindow): Result<Window> {
    match raw
    case NotObject => Err("Business-hour window must be an object")
    case WrongKeys => Err("Business-hour window requires only start and end")
    case Times(rawStart, rawEnd) =>
      var start := ParseClock(rawStart);
      var end := ParseClock(rawEnd);
      if start.Err? then Err(start.code)
      else if end.Err? then Err(end.code)
      else if end.value <= start.value then Err("Business-hour end must be after start")
      else Ok(Window(start.value, end.value, rawStart.value, rawEnd.value))
  }

  /** The windows in order, or the first error. */
  function ParseAll(raws: seq<RawWindow>): Result<seq<Window>> {
    if raws == [] then Ok([])
    else
      var before := ParseAll(raws[..|raws| - 1]);
      if before.Err? then before
      else
        var last := ParseWindow(raws[|raws| - 1]);
        if last.Err? then Err(last.code) else Ok(before.value + [last.value])
  }

  lemma {:induction false} ParseAllIs(raws: seq<RawWindow>)
    ensures ParseAll(raws).Ok? <==> forall i :: 0 <= i < |raws| ==> ParseWindow(raws[i]).Ok?
    ensures ParseAll(raws).Ok? ==> |ParseAll(raws).value| == |raws|
    ensures ParseAll(raws).Ok? ==> forall i :: 0 <= i < |raws| ==> ParseWindow(raws[i]) == Ok(ParseAll(raws).value[i])
  {
    hide ParseWindow;
    if raws != [] { ParseAllIs(raws[..|raws| - 1]); }
  }

  // ---------------------------------------------------------------- sorting

  predicate Le(a: Window, b: Window) {
    a.start < b.start || (a.start == b.start && a.end <= b.end)
  }

  /** Insertion after the equal ones keeps the sort stable. */
  function Insert(sorted: seq<Window>, w: Window): seq<Window> {
    if sorted == [] || Le(sorted[|sorted| - 1], w) then sorted + [w]
    else Insert(sorted[..|sorted| - 1], w) + [sorted[|sorted| - 1]]
  }

  function Sort(windows: seq<Window>): seq<Window> {
    if windows == [] then [] else Insert(Sort(windows[..|windows| - 1]), windows[|windows| - 1])
  }

  ghost predicate IsSorted(windows: seq<Window>) {
    forall i, j :: 0 <= i < j < |windows| ==> Le(windows[i], windows[j])
  }

  lemma LastOut<T>(s: seq<T>)
    requires s != []
    ensures s == s[..|s| - 1] + [s[|s| - 1]] && multiset(s) == multiset(s[..|s| - 1]) + multiset{s[|s| - 1]}
  {
  }

  lemma OneOut<T>(s: seq<T>, k: nat)
    requires k < |s|
    ensures multiset(s) == multiset(s[..k] + s[k + 1..]) + multiset{s[k]}
  {
    assert s == s[..k] + [s[k]] + s[k + 1..];
  }

  lemma Appended<T>(s: seq<T>, x: T)
    ensures multiset(s + [x]) == multiset(s) + multiset{x}
  {
  }

  lemma Where<T>(s: seq<T>, x: T) returns (k: nat)
    requires x in multiset(s)
    ensures k < |s| && s[k] == x
  {
    k :| k < |s| && s[k] == x;
  }

  lemma {:induction false} InsertMultiset(sorted: seq<Window>, w: Window)
    ensures multiset(Insert(sorted, w)) == multiset(sorted) + multiset{w}
  {
    hide Le;
    if sorted == [] || Le(sorted[|sorted| - 1], w) {
      Appended(sorted, w);
    } else {
      LastOut(sorted);
      InsertMultiset(sorted[..|sorted| - 1], w);
      Appended(Insert(sorted[..|sorted| - 1], w), sorted[|sorted| - 1]);
    }
  }

  lemma {:induction false} InsertSorted(sorted: seq<Window>, w: Window)
    requires IsSorted(sorted)
    ensures IsSorted(Insert(sorted, w))
  {
    if sorted != [] && !Le(sorted[|sorted| - 1], w) {
      var init, last := sorted[..|sorted| - 1], sorted[|sorted| - 1];
      InsertSorted(init, w);
      InsertMultiset(init, w);
      forall i | 0 <= i < |Insert(init, w)| ensures Le(Insert(init, w)[i], last) {
        assert Insert(init, w)[i] in multiset(Insert(init, w));
        if Insert(init, w)[i] != w { var k := Where(init, Insert(init, w)[i]); }
      }
    }
  }

  lemma {:induction false} SortIs(windows: seq<Window>)
    ensures IsSorted(Sort(windows)) && multiset(Sort(windows)) == multiset(windows)
  {
    hide IsSorted, Insert;
    if windows == [] {
      SortNothing();
    } else {
      LastOut(windows);
      SortIs(windows[..|windows| - 1]);
      InsertSorted(Sort(windows[..|windows| - 1]), windows[|windows| - 1]);
      InsertMultiset(Sort(windows[..|windows| - 1]), windows[|windows| - 1]);
    }
  }

  lemma SortNothing()
    ensures Sort([]) == [] && IsSorted([])
  {
  }

  // ---------------------------------------------------------------- one day

  /** The overlap loop: some window starts before the one ahead of it has ended. */
  predicate Overlaps(windows: seq<Window>, previousEnd: int) {
    windows != [] && (windows[0].start < previousEnd || Overlaps(windows[1..], windows[0].end))
  }

  function NormalizeDay(raws: seq<RawWindow>): Result<seq<Window>> {
    if |raws| > MAX_WINDOWS then Err("Business hours support at most 8 windows per weekday")
    else
      var parsed := ParseAll(raws);
      if parsed.Err? then parsed
      else if Overlaps(Sort(parsed.value), -1) then Err("Business-hour windows must not overlap")
      else Ok(Sort(parsed.value))
  }

  predicate Apart(a: Window, b: Window) {
    a.end <= b.start || b.end <= a.start
  }

  /** Windows that are not empty and share no minute. */
  ghost predicate AreDisjoint(windows: seq<Window>) {
    && (forall i :: 0 <= i < |windows| ==> windows[i].start < windows[i].end)
    && forall i, j :: 0 <= i < j < |windows| ==> Apart(windows[i], windows[j])
  }

  ghost predicate AreNonEmpty(windows: seq<Window>) {
    forall i :: 0 <= i < |windows| ==> windows[i].start < windows[i].end
  }

  lemma {:induction false} NoOverlapIs(windows: seq<Window>, previousEnd: int)
    requires IsSorted(windows) && AreNonEmpty(windows)
    ensures !Overlaps(windows, previousEnd)
            <==> AreDisjoint(windows) && forall i :: 0 <= i < |windows| ==> previousEnd <= windows[i].start
    decreases |windows|
  {
    if windows != [] {
      var rest := windows[1..];
      NoOverlapIs(rest, windows[0].end);
      if !Overlaps(windows, previousEnd) {
        forall i, j | 0 <= i < j < |windows| ensures Apart(windows[i], windows[j]) {
          if i == 0 { assert windows[j] == rest[j - 1]; } else { assert Apart(rest[i - 1], rest[j - 1]); }
        }
        forall i | 0 <= i < |windows| ensures previousEnd <= windows[i].start {
          if i > 0 { assert windows[i] == rest[i - 1]; }
        }
      }
      if AreDisjoint(windows) && forall i :: 0 <= i < |windows| ==> previousEnd <= windows[i].start {
        forall i, j | 0 <= i < j < |rest| ensures Apart(rest[i], rest[j]) {
          assert Apart(windows[i + 1], windows[j + 1]);
        }
        forall i | 0 <= i < |rest| ensures windows[0].end <= rest[i].start {
          assert Apart(windows[0], windows[i + 1]) && Le(windows[0], windows[i + 1]);
        }
      }
    }
  }

  /** Disjointness does not depend on the order of the windows. */
  lemma DisjointAnyOrder(a: seq<Window>, b: seq<Window>)
    requires multiset(a) == multiset(b) && AreDisjoint(a)
    ensures AreDisjoint(b)
  {
    forall i | 0 <= i < |b| ensures b[i].start < b[i].end {
      assert b[i] in multiset(b);
      var k :| 0 <= k < |a| && a[k] == b[i];
    }
    forall i, j | 0 <= i < j < |b| ensures Apart(b[i], b[j]) {
      if b[i] == b[j] {
        Twice(b, i, j);
        var k, l := TwoPlaces(a, b[i]);
        assert Apart(a[k], a[l]);
      } else {
        var k := Where(a, b[i]);
        var l := Where(a, b[j]);
        assert k < l ==> Apart(a[k], a[l]);
        assert l < k ==> Apart(a[l], a[k]);
      }
    }
  }

  lemma Twice(b: seq<Window>, i: nat, j: nat)
    requires i < j < |b| && b[i] == b[j]
    ensures multiset(b)[b[i]] >= 2
  {
    OneOut(b, j);
    assert (b[..j] + b[j + 1..])[i] == b[i];
  }

  lemma {:induction false} TwoPlaces(a: seq<Window>, w: Window) returns (k: nat, l: nat)
    requires multiset(a)[w] >= 2
    ensures k < l < |a| && a[k] == w && a[l] == w
  {
    LastOut(a);
    var n := |a| - 1;
    if a[n] == w {
      k := Where(a[..n], w);
      l := n;
    } else {
      k, l := TwoPlaces(a[..n], w);
    }
  }

  /** A day is accepted exactly when it has at most eight windows, each of which parses, and no two share a minute:
      a condition that does not mention any order. */
  lemma AcceptedExactly(raws: seq<RawWindow>)
    ensures NormalizeDay(raws).Ok?
            <==> |raws| <= MAX_WINDOWS && ParseAll(raws).Ok? && AreDisjoint(ParseAll(raws).value)
  {
    if |raws| <= MAX_WINDOWS && ParseAll(raws).Ok? {
      var parsed := ParseAll(raws).value;
      SortIs(parsed);
      ParsedAreNonEmpty(raws);
      SortedNonEmpty(parsed);
      NoOverlapIs(Sort(parsed), -1);
      if AreDisjoint(parsed) { DisjointAnyOrder(parsed, Sort(parsed)); }
      if AreDisjoint(Sort(parsed)) { DisjointAnyOrder(Sort(parsed), parsed); }
    }
  }

  lemma ParsedAreNonEmpty(raws: seq<RawWindow>)
    requires ParseAll(raws).Ok?
    ensures AreNonEmpty(ParseAll(raws).value)
  {
    ParseAllIs(raws);
    forall i | 0 <= i < |raws| ensures ParseAll(raws).value[i].start < ParseAll(raws).value[i].end {
      assert ParseWindow(raws[i]).Ok?;
    }
  }

  lemma SortedNonEmpty(windows: seq<Window>)
    requires AreNonEmpty(windows)
    ensures AreNonEmpty(Sort(windows))
  {
    SortIs(windows);
    forall i | 0 <= i < |Sort(windows)| ensures Sort(windows)[i].start < Sort(windows)[i].end {
      assert Sort(windows)[i] in multiset(windows);
      var k :| 0 <= k < |windows| && windows[k] == Sort(windows)[i];
    }
  }

  predicate Contains(w: Window, minute: int) {
    w.start <= minute < w.end
  }

  /** An accepted day is sorted, disjoint, and made of exactly the configured windows. */
  lemma NormalizedDay(raws: seq<RawWindow>)
    requires NormalizeDay(raws).Ok?
    ensures var windows := NormalizeDay(raws).value;
            IsSorted(windows) && AreDisjoint(windows) && multiset(windows) == multiset(ParseAll(raws).value)
  {
    AcceptedExactly(raws);
    SortIs(ParseAll(raws).value);
    DisjointAnyOrder(ParseAll(raws).value, Sort(ParseAll(raws).value));
  }

  /** The last of disjoint sorted windows is the only one that every other comes before. */
  lemma LastIsLast(a: seq<Window>, b: seq<Window>)
    requires IsSorted(a) && IsSorted(b) && multiset(a) == multiset(b) && a != [] && b != []
    requires AreDisjoint(a) && AreDisjoint(b)
    ensures a[|a| - 1] == b[|b| - 1]
  {
    assert a[|a| - 1] in multiset(a) && b[|b| - 1] in multiset(b);
    var i := Where(b, a[|a| - 1]);
    var j := Where(a, b[|b| - 1]);
    EndsBeforeLast(b, i);
    EndsBeforeLast(a, j);
  }

  lemma EndsBeforeLast(b: seq<Window>, i: nat)
    requires IsSorted(b) && AreDisjoint(b) && i < |b|
    ensures b[i].start < b[i].end && (i == |b| - 1 || b[i].end <= b[|b| - 1].start)
  {
    if i < |b| - 1 { assert Le(b[i], b[|b| - 1]) && Apart(b[i], b[|b| - 1]); }
  }

  lemma {:induction false} SortedIsUnique(a: seq<Window>, b: seq<Window>)
    requires IsSorted(a) && IsSorted(b) && multiset(a) == multiset(b) && AreDisjoint(a) && AreDisjoint(b)
    ensures a == b
    decreases |a|
  {
    hide Le, Apart;
    SameSize(a, b);
    if a != [] {
      LastIsLast(a, b);
      LastOut(a);
      LastOut(b);
      Cancel(multiset(a[..|a| - 1]), multiset(b[..|b| - 1]), a[|a| - 1]);
      SortedIsUnique(a[..|a| - 1], b[..|b| - 1]);
    }
  }

  lemma Cancel<T>(m: multiset<T>, n: multiset<T>, x: T)
    requires m + multiset{x} == n + multiset{x}
    ensures m == n
  {
    assert m == (m + multiset{x}) - multiset{x};
    assert n == (n + multiset{x}) - multiset{x};
  }

  lemma SameSize<T>(a: seq<T>, b: seq<T>)
    requires multiset(a) == multiset(b)
    ensures |a| == |b|
  {
    assert |multiset(a)| == |multiset(b)|;
  }

  lemma {:induction false} ParsedMultiset(raws: seq<RawWindow>, other: seq<RawWindow>)
    requires ParseAll(raws).Ok? && multiset(raws) == multiset(other)
    ensures ParseAll(other).Ok? && multiset(ParseAll(other).value) == multiset(ParseAll(raws).value)
    decreases |raws|
  {
    hide ParseWindow, ParseAll;
    SameSize(raws, other);
    ParseAllIs(raws);
    ParseAllIs(other);
    forall i | 0 <= i < |other| ensures ParseWindow(other[i]).Ok? {
      assert other[i] in multiset(other);
      var k := Where(raws, other[i]);
    }
    if raws == [] {
      assert other == raws;
    } else {
      var n := |raws| - 1;
      LastOut(raws);
      var k := Where(other, raws[n]);
      OneOut(other, k);
      var rest := other[..k] + other[k + 1..];
      assert raws[..n] + raws[n + 1..] == raws[..n];
      ParsedWithout(raws, n);
      ParsedWithout(other, k);
      Cancel(multiset(raws[..n]), multiset(rest), raws[n]);
      ParsedMultiset(raws[..n], rest);
    }
  }

  /** Taking one configured window out takes its parsed window out. */
  lemma ParsedWithout(raws: seq<RawWindow>, k: nat)
    requires k < |raws| && ParseAll(raws).Ok?
    ensures var rest := raws[..k] + raws[k + 1..];
            ParseAll(rest).Ok? && ParseWindow(raws[k]).Ok?
            && multiset(ParseAll(raws).value) == multiset(ParseAll(rest).value) + multiset{ParseWindow(raws[k]).value}
  {
    hide ParseWindow, ParseAll;
    var rest := raws[..k] + raws[k + 1..];
    ParseAllIs(raws);
    ParseAllIs(rest);
    var all := ParseAll(raws).value;
    assert forall i :: 0 <= i < |rest| ==> rest[i] == raws[if i < k then i else i + 1];
    assert ParseAll(rest).value == all[..k] + all[k + 1..];
    OneOut(all, k);
  }

  /** Neither acceptance nor the result depends on the order in which the windows were given. */
  lemma OrderDoesNotMatter(raws: seq<RawWindow>, other: seq<RawWindow>)
    requires multiset(raws) == multiset(other) && NormalizeDay(raws).Ok?
    ensures NormalizeDay(other) == NormalizeDay(raws)
  {
    hide ParseAll, Sort, Overlaps;
    SameSize(raws, other);
    AcceptedExactly(raws);
    AcceptedExactly(other);
    ParsedMultiset(raws, other);
    DisjointAnyOrder(ParseAll(raws).value, ParseAll(other).value);
    NormalizedDay(raws);
    NormalizedDay(other);
    SortedIsUnique(NormalizeDay(raws).value, NormalizeDay(other).value);
  }

  /** The form that is stored: the configured texts again. */
  function Render(windows: seq<Window>): (raws: seq<RawWindow>)
    ensures |raws| == |windows|
  {
    if windows == [] then []
    else
      var last := windows[|windows| - 1];
      Render(windows[..|windows| - 1]) + [Times(Some(last.rawStart), Some(last.rawEnd))]
  }

  /** A window that parsing can produce. */
  predicate IsGenuine(w: Window) {
    ParseWindow(Times(Some(w.rawStart), Some(w.rawEnd))) == Ok(w)
  }

  lemma {:induction false} ParseRendered(windows: seq<Window>)
    requires forall i :: 0 <= i < |windows| ==> IsGenuine(windows[i])
    ensures ParseAll(Render(windows)) == Ok(windows)
  {
    hide ParseWindow;
    if windows != [] {
      ParseRendered(windows[..|windows| - 1]);
      assert windows == windows[..|windows| - 1] + [windows[|windows| - 1]];
      assert IsGenuine(windows[|windows| - 1]);
    }
  }

  lemma ParsedIsGenuine(raw: RawWindow)
    requires ParseWindow(raw).Ok?
    ensures IsGenuine(ParseWindow(raw).value)
  {
  }

  /** Normalising the stored form of an accepted day gives the same day: what is loaded is what was stored. */
  lemma NormalizeDayTwice(raws: seq<RawWindow>)
    requires NormalizeDay(raws).Ok?
    ensures NormalizeDay(Render(NormalizeDay(raws).value)) == NormalizeDay(raws)
  {
    hide ParseWindow, IsGenuine, ParseAll, Sort, Overlaps;
    AcceptedExactly(raws);
    NormalizedDay(raws);
    ParseAllIs(raws);
    var windows := NormalizeDay(raws).value;
    forall i | 0 <= i < |windows| ensures IsGenuine(windows[i]) {
      assert windows[i] in multiset(ParseAll(raws).value);
      var k :| 0 <= k < |raws| && ParseAll(raws).value[k] == windows[i];
      ParsedIsGenuine(raws[k]);
    }
    ParseRendered(windows);
    SameSize(windows, ParseAll(raws).value);
    AcceptedExactly(Render(windows));
    NormalizedDay(Render(windows));
    SortedIsUnique(NormalizeDay(Render(windows)).value, windows);
  }

  // ---------------------------------------------------------------- the week

  function DayOf(value: RawHours, weekday: string): Result<seq<Window>> {
    if weekday !in value || value[weekday].Null? then Ok([])
    else if value[weekday].NotList? then Err("Business-hour weekday value must be a list")
    else NormalizeDay(value[weekday].windows)
  }

  predicate KnowsDays(value: RawHours) {
    forall d :: d in value ==> d in WEEKDAYS
  }

  /** The days in order; a day without windows is left out. */
  function Days(value: RawHours, days: seq<string>): Result<Hours> {
    if days == [] then Ok(map[])
    else
      var n := |days| - 1;
      var before := Days(value, days[..n]);
      if before.Err? then before
      else
        var day := DayOf(value, days[n]);
        if day.Err? then Err(day.code)
        else if day.value == [] then before
        else Ok(before.value[days[n] := day.value])
  }

  function Normalized(value: RawHours): Result<Hours> {
    if !KnowsDays(value) then Err("Business hours contain an invalid weekday") else Days(value, WEEKDAYS)
  }

  method NormalizeWindows(raws: seq<RawWindow>) returns (r: Result<seq<Window>>)
    ensures r == NormalizeDay(raws)
  {
    hide ParseWindow, Sort;
    if |raws| > MAX_WINDOWS { return Err("Business hours support at most 8 windows per weekday"); }
    var parsed: seq<Window> := [];
    for k := 0 to |raws|
      invariant ParseAll(raws[..k]) == Ok(parsed)
    {
      assert raws[..k + 1][..k] == raws[..k];
      var window := ParseWindow(raws[k]);
      if window.Err? {
        FirstErrorStays(raws, k + 1);
        return Err(window.code);
      }
      parsed := parsed + [window.value];
    }
    assert raws[..|raws|] == raws;
    var sorted := Sort(parsed);
    var previousEnd: int := -1;
    for k := 0 to |sorted|
      invariant Overlaps(sorted, -1) == Overlaps(sorted[k..], previousEnd)
    {
      if sorted[k].start < previousEnd { return Err("Business-hour windows must not overlap"); }
      assert sorted[k..][1..] == sorted[k + 1..];
      previousEnd := sorted[k].end;
    }
    return Ok(sorted);
  }

  lemma {:induction false} FirstErrorStays(raws: seq<RawWindow>, k: nat)
    requires k <= |raws| && ParseAll(raws[..k]).Err?
    ensures ParseAll(raws) == ParseAll(raws[..k])
  {
    hide ParseWindow;
    if k < |raws| {
      assert raws[..|raws| - 1][..k] == raws[..k];
      FirstErrorStays(raws[..|raws| - 1], k);
    } else {
      assert raws[..k] == raws;
    }
  }

  method NormalizeBusinessHours(value: RawHours) returns (r: Result<Hours>)
    ensures r == Normalized(value)
  {
    hide NormalizeDay, Days, KnowsDays;
    if !KnowsDays(value) { return Err("Business hours contain an invalid weekday"); }
    var normalized: Hours := map[];
    var days := WEEKDAYS;
    NoDays(value);
    for k := 0 to |days|
      invariant Days(value, days[..k]) == Ok(normalized)
    {
      var weekday := days[k];
      NextDay(value, days, k);
      if weekday in value && !value[weekday].Null? {
        if value[weekday].NotList? {
          EarlyError(value, days, k + 1);
          return Err("Business-hour weekday value must be a list");
        }
        var rendered := NormalizeWindows(value[weekday].windows);
        if rendered.Err? {
          EarlyError(value, days, k + 1);
          return Err(rendered.code);
        }
        if rendered.value != [] { normalized := normalized[weekday := rendered.value]; }
      }
    }
    assert days[..|days|] == days;
    return Ok(normalized);
  }

  lemma NoDays(value: RawHours)
    ensures Days(value, []) == Ok(map[])
  {
  }

  lemma NextDay(value: RawHours, days: seq<string>, k: nat)
    requires k < |days| && Days(value, days[..k]).Ok?
    ensures var day := DayOf(value, days[k]);
            Days(value, days[..k + 1])
            == if day.Err? then Err(day.code)
               else if day.value == [] then Days(value, days[..k])
               else Ok(Days(value, days[..k]).value[days[k] := day.value])
  {
    hide DayOf;
    assert days[..k + 1][..k] == days[..k];
  }

  lemma {:induction false} EarlyError(value: RawHours, days: seq<string>, k: nat)
    requires k <= |days| && Days(value, days[..k]).Err?
    ensures Days(value, days) == Days(value, days[..k])
  {
    hide DayOf;
    if k < |days| {
      assert days[..|days| - 1][..k] == days[..k];
      EarlyError(value, days[..|days| - 1], k);
    } else {
      assert days[..k] == days;
    }
  }

  ghost predicate AreDistinct(days: seq<string>) {
    forall i, j :: 0 <= i < j < |days| ==> days[i] != days[j]
  }

  predicate Holds(hours: Hours, value: RawHours, d: string) {
    && DayOf(value, d).Ok?
    && if DayOf(value, d).value == [] then d !in hours else d in hours && hours[d] == DayOf(value, d).value
  }

  lemma {:induction false} DaysAre(value: RawHours, days: seq<string>)
    requires AreDistinct(days)
    ensures Days(value, days).Ok? <==> forall i :: 0 <= i < |days| ==> DayOf(value, days[i]).Ok?
    ensures Days(value, days).Ok? ==> forall i :: 0 <= i < |days| ==> Holds(Days(value, days).value, value, days[i])
    ensures Days(value, days).Ok? ==> forall d :: d in Days(value, days).value ==> d in days
  {
    hide DayOf;
    if days != [] { DaysAre(value, days[..|days| - 1]); }
  }

  lemma WeekdaysDistinct()
    ensures AreDistinct(WEEKDAYS)
  {
    forall i, j | 0 <= i < j < |WEEKDAYS| ensures WEEKDAYS[i] != WEEKDAYS[j] {
      assert WEEKDAYS[i][0] != WEEKDAYS[j][0] || WEEKDAYS[i][1] != WEEKDAYS[j][1];
    }
  }

  lemma IndexOfDay(d: string) returns (i: nat)
    requires d in WEEKDAYS
    ensures i < |WEEKDAYS| && WEEKDAYS[i] == d
  {
    i :| i < |WEEKDAYS| && WEEKDAYS[i] == d;
  }

  /** A week is accepted exactly when it names only weekdays and each of its days is accepted. */
  lemma WeekAcceptedExactly(value: RawHours)
    ensures Normalized(value).Ok? <==> KnowsDays(value) && forall d :: d in WEEKDAYS ==> DayOf(value, d).Ok?
  {
    hide DayOf, Days;
    WeekdaysDistinct();
    DaysAre(value, WEEKDAYS);
    if forall d :: d in WEEKDAYS ==> DayOf(value, d).Ok? {
      assert forall i :: 0 <= i < |WEEKDAYS| ==> WEEKDAYS[i] in WEEKDAYS;
    }
  }

  /** A day of an accepted week holds what it normalises to, and is absent when that is nothing. */
  lemma WeekHolds(value: RawHours, d: string)
    requires Normalized(value).Ok?
    ensures d in Normalized(value).value <==> d in WEEKDAYS && DayOf(value, d) != Ok([])
    ensures d in WEEKDAYS ==> DayOf(value, d).Ok?
    ensures d in Normalized(value).value ==> DayOf(value, d) == Ok(Normalized(value).value[d])
  {
    hide DayOf, Days;
    WeekdaysDistinct();
    DaysAre(value, WEEKDAYS);
    if d in WEEKDAYS { var i := IndexOfDay(d); }
  }

  // ---------------------------------------------------------------- is_within_business_hours

  predicate AnyContains(windows: seq<Window>, minute: int) {
    exists i :: 0 <= i < |windows| && Contains(windows[i], minute)
  }

  /** The weekday and minute are those of the instant in the policy's time zone. */
  predicate IsWithin(hours: Hours, weekday: string, minute: int) {
    |hours| == 0 || (weekday in hours && AnyContains(hours[weekday], minute))
  }

  ghost predicate ConfiguredContains(value: RawHours, weekday: string, minute: int) {
    && weekday in value && value[weekday].Windows?
    && exists i :: 0 <= i < |value[weekday].windows|
                   && ParseWindow(value[weekday].windows[i]).Ok?
                   && Contains(ParseWindow(value[weekday].windows[i]).value, minute)
  }

  ghost predicate NothingConfigured(value: RawHours) {
    forall d :: d in value ==> value[d].Null? || (value[d].Windows? && value[d].windows == [])
  }

  /** The windows of an accepted day cover exactly the minutes of the configured ones. */
  lemma SameMinutes(raws: seq<RawWindow>, minute: int)
    requires NormalizeDay(raws).Ok?
    ensures AnyContains(NormalizeDay(raws).value, minute)
            <==> exists i :: 0 <= i < |raws| && ParseWindow(raws[i]).Ok? && Contains(ParseWindow(raws[i]).value, minute)
  {
    hide ParseWindow, ParseAll, Sort, Overlaps, Contains;
    AcceptedExactly(raws);
    NormalizedDay(raws);
    ParseAllIs(raws);
    var windows, parsed := NormalizeDay(raws).value, ParseAll(raws).value;
    if i :| 0 <= i < |windows| && Contains(windows[i], minute) {
      assert windows[i] in multiset(windows);
      var k := Where(parsed, windows[i]);
      assert ParseWindow(raws[k]) == Ok(parsed[k]);
    }
    if i :| 0 <= i < |raws| && ParseWindow(raws[i]).Ok? && Contains(ParseWindow(raws[i]).value, minute) {
      assert parsed[i] in multiset(parsed);
      var k := Where(windows, parsed[i]);
    }
  }

  lemma NoWindowsNoDay(raws: seq<RawWindow>)
    requires NormalizeDay(raws).Ok?
    ensures NormalizeDay(raws).value == [] <==> raws == []
  {
    hide ParseWindow, Overlaps;
    NormalizedDay(raws);
    ParseAllIs(raws);
    SameSize(NormalizeDay(raws).value, ParseAll(raws).value);
  }

  /** A minute is inside business hours exactly when no windows are configured for any day, or some configured window
      of that weekday contains it. */
  lemma WithinExactly(value: RawHours, weekday: string, minute: int)
    requires Normalized(value).Ok? && weekday in WEEKDAYS
    ensures IsWithin(Normalized(value).value, weekday, minute)
            <==> NothingConfigured(value) || ConfiguredContains(value, weekday, minute)
  {
    hide NormalizeDay, Normalized, AnyContains;
    EmptyWeek(value);
    WeekHolds(value, weekday);
    if weekday in value && value[weekday].Windows? {
      SameMinutes(value[weekday].windows, minute);
      NoWindowsNoDay(value[weekday].windows);
      NoneContain(minute);
    }
  }

  lemma NoneContain(minute: int)
    ensures !AnyContains([], minute)
  {
  }

  lemma EmptyWeek(value: RawHours)
    requires Normalized(value).Ok?
    ensures |Normalized(value).value| == 0 <==> NothingConfigured(value)
  {
    hide NormalizeDay, Days;
    WeekAcceptedExactly(value);
    var hours := Normalized(value).value;
    forall d | d in value ensures value[d].Null? || (value[d].Windows? && (value[d].windows == [] <==> d !in hours)) {
      assert d in WEEKDAYS;
      WeekHolds(value, d);
      assert DayOf(value, d).Ok?;
      if value[d].Windows? { NoWindowsNoDay(value[d].windows); }
    }
    forall d | d in hours ensures d in value && !value[d].Null? {
      WeekHolds(value, d);
    }
    if |hours| != 0 {
      assert hours.Keys != {};
      var d :| d in hours;
    }
  }

  /** The stored form of a week. */
  function RenderWeek(hours: Hours): RawHours {
    map d | d in hours :: Windows(Render(hours[d]))
  }

  lemma DayTwice(value: RawHours, d: string)
    requires Normalized(value).Ok? && d in WEEKDAYS
    ensures DayOf(RenderWeek(Normalized(value).value), d) == DayOf(value, d)
  {
    hide NormalizeDay, Normalized, Render;
    WeekHolds(value, d);
    if d in Normalized(value).value {
      NormalizeDayTwice(value[d].windows);
    }
  }

  lemma {:induction false} SameDays(a: RawHours, b: RawHours, days: seq<string>)
    requires forall d :: d in days ==> DayOf(a, d) == DayOf(b, d)
    ensures Days(a, days) == Days(b, days)
  {
    hide DayOf;
    if days != [] {
      assert days[|days| - 1] in days;
      SameDays(a, b, days[..|days| - 1]);
    }
  }

  /** Normalising what was stored gives the same hours: loading a policy reads what saving it accepted. */
  lemma NormalizedTwice(value: RawHours)
    requires Normalized(value).Ok?
    ensures Normalized(RenderWeek(Normalized(value).value)) == Normalized(value)
  {
    hide DayOf, Days, Render;
    var stored := RenderWeek(Normalized(value).value);
    forall d | d in WEEKDAYS ensures DayOf(stored, d) == DayOf(value, d) { DayTwice(value, d); }
    forall d | d in stored ensures d in WEEKDAYS { WeekHolds(value, d); }
    SameDays(stored, value, WEEKDAYS);
  }

  // ---------------------------------------------------------------- hours as people write them

  function Digit(n: nat): char {
    ('0' as int + n % 10) as char
  }

  /** A minute of the day as HH:MM. */
  function Clock(minute: nat): string {
    [Digit(minute / 60 / 10), Digit(minute / 60 % 10), ':', Digit(minute % 60 / 10), Digit(minute % 60 % 10)]
  }

  lemma DigitIs(c: char)
    requires IsDigit(c)
    ensures Digit(c as int - '0' as int) == c && c as int - '0' as int < 10
  {
  }

  lemma TwoDigitsSplit(a: char, b: char)
    requires IsDigit(a) && IsDigit(b)
    ensures TwoDigits(a, b) / 10 == a as int - '0' as int && TwoDigits(a, b) % 10 == b as int - '0' as int
  {
  }

  lemma HourAndMinute(hour: nat, minute: nat)
    requires minute < 60
    ensures (hour * 60 + minute) / 60 == hour && (hour * 60 + minute) % 60 == minute
  {
  }

  lemma DigitRoundTrip(n: nat)
    requires n < 100
    ensures IsDigit(Digit(n / 10)) && IsDigit(Digit(n % 10)) && TwoDigits(Digit(n / 10), Digit(n % 10)) == n
  {
  }

  /** A time is read as a minute exactly when it is that minute's HH:MM, from 00:00 to 23:59. */
  lemma ClockExactly(value: Option<string>, minute: nat)
    ensures ParseClock(value) == Ok(minute) <==> minute < 24 * 60 && value == Some(Clock(minute))
  {
    hide TwoDigits, Digit;
    if minute < 24 * 60 && value == Some(Clock(minute)) {
      DigitRoundTrip(minute / 60);
      DigitRoundTrip(minute % 60);
    }
    if ParseClock(value) == Ok(minute) {
      var s := value.value;
      var hour, rest := TwoDigits(s[0], s[1]), TwoDigits(s[3], s[4]);
      HourAndMinute(hour, rest);
      TwoDigitsSplit(s[0], s[1]);
      TwoDigitsSplit(s[3], s[4]);
      DigitIs(s[0]);
      DigitIs(s[1]);
      DigitIs(s[3]);
      DigitIs(s[4]);
      assert s == [s[0], s[1], ':', s[3], s[4]];
    }
  }

  /** A window that runs from one minute to a later one, as people write it. */
  predicate Spans(raw: RawWindow, from: nat, to: nat) {
    from < to < 24 * 60 && raw == Times(Some(Clock(from)), Some(Clock(to)))
  }

  lemma SpansExactly(raw: RawWindow, from: nat, to: nat)
    ensures ParseWindow(raw).Ok? && ParseWindow(raw).value.start == from && ParseWindow(raw).value.end == to
            <==> Spans(raw, from, to)
  {
    hide ParseClock, Clock;
    if raw.Times? {
      ClockExactly(raw.start, from);
      ClockExactly(raw.end, to);
      if ParseClock(raw.start).Ok? { ClockExactly(raw.start, ParseClock(raw.start).value); }
      if ParseClock(raw.end).Ok? { ClockExactly(raw.end, ParseClock(raw.end).value); }
    }
  }

  ghost predicate IsSpan(raw: RawWindow) {
    exists from: nat, to: nat :: Spans(raw, from, to)
  }

  ghost predicate ShareNoMinute(raws: seq<RawWindow>) {
    forall i, j, a: nat, b: nat, c: nat, d: nat ::
      0 <= i < j < |raws| && Spans(raws[i], a, b) && Spans(raws[j], c, d) ==> b <= c || d <= a
  }

  lemma ParsesExactly(raw: RawWindow)
    ensures ParseWindow(raw).Ok? <==> IsSpan(raw)
  {
    hide ParseWindow, Spans;
    if from: nat, to: nat :| Spans(raw, from, to) { SpansExactly(raw, from, to); }
    if ParseWindow(raw).Ok? { SpansExactly(raw, ParseWindow(raw).value.start, ParseWindow(raw).value.end); }
  }

  lemma DisjointByClock(raws: seq<RawWindow>)
    requires ParseAll(raws).Ok?
    ensures AreDisjoint(ParseAll(raws).value) <==> ShareNoMinute(raws)
  {
    hide ParseWindow, Spans;
    ParseAllIs(raws);
    var parsed := ParseAll(raws).value;
    forall i, a: nat, b: nat | 0 <= i < |raws|
      ensures Spans(raws[i], a, b) <==> parsed[i].start == a && parsed[i].end == b {
      SpansExactly(raws[i], a, b);
    }
    ParsedAreNonEmpty(raws);
    if AreDisjoint(parsed) {
      forall i, j, a: nat, b: nat, c: nat, d: nat | 0 <= i < j < |raws| && Spans(raws[i], a, b) && Spans(raws[j], c, d)
        ensures b <= c || d <= a {
        assert Apart(parsed[i], parsed[j]);
      }
    } else {
      var i, j :| 0 <= i < j < |parsed| && !Apart(parsed[i], parsed[j]);
      assert Spans(raws[i], parsed[i].start, parsed[i].end) && Spans(raws[j], parsed[j].start, parsed[j].end);
    }
  }

  /** A day is accepted exactly when it lists at most eight windows, each from a time to a later one, and no two of them
      share a minute. */
  lemma DayAcceptedByClock(raws: seq<RawWindow>)
    ensures NormalizeDay(raws).Ok?
            <==> |raws| <= 8 && (forall i :: 0 <= i < |raws| ==> IsSpan(raws[i])) && ShareNoMinute(raws)
  {
    hide ParseWindow, IsSpan, ShareNoMinute, AreDisjoint, NormalizeDay;
    AcceptedExactly(raws);
    ParseAllIs(raws);
    forall i | 0 <= i < |raws| ensures ParseWindow(raws[i]).Ok? <==> IsSpan(raws[i]) { ParsesExactly(raws[i]); }
    if ParseAll(raws).Ok? { DisjointByClock(raws); }
  }

  /** A minute of a weekday is inside business hours exactly when nothing is configured for any day, or a window of that
      weekday runs from that minute or an earlier one to a later one. */
  lemma WithinByClock(value: RawHours, weekday: string, minute: int)
    requires Normalized(value).Ok? && weekday in WEEKDAYS
    ensures IsWithin(Normalized(value).value, weekday, minute)
            <==> NothingConfigured(value)
                 || (weekday in value && value[weekday].Windows?
                     && exists i, from: nat, to: nat ::
                          0 <= i < |value[weekday].windows| && Spans(value[weekday].windows[i], from, to)
                          && from <= minute < to)
  {
    hide Normalized, ParseWindow, Spans, IsWithin;
    WithinExactly(value, weekday, minute);
    if weekday in value && value[weekday].Windows? {
      var raws := value[weekday].windows;
      if i :| 0 <= i < |raws| && ParseWindow(raws[i]).Ok? && Contains(ParseWindow(raws[i]).value, minute) {
        SpansExactly(raws[i], ParseWindow(raws[i]).value.start, ParseWindow(raws[i]).value.end);
      }
      if i, from: nat, to: nat :| 0 <= i < |raws| && Spans(raws[i], from, to) && from <= minute < to {
        SpansExactly(raws[i], from, to);
      }
    }
  }
}
