/** Weekly activation windows: when a schedule is active and when it next becomes so. */
module PolicySchedule {
  import opened Text

  const DAY: int := 24 * 60

  /** A PolicySchedule row. `zone` is the fixed offset from UTC in minutes, or None for a name
      that time.LoadLocation rejects. */
  datatype Schedule = Schedule(zone: Option<int>, weekdays: string, startMinute: int, endMinute: int, enabled: bool)

  // ----- weekdays

  /** The weekday numbers in `items[..n]`, or None at the first invalid one. */
  function DaysIn(items: seq<string>, n: nat): (r: Option<set<nat>>)
    requires n <= |items|
    ensures r.Some? ==> forall d :: d in r.value ==> d <= 6
  {
    if n == 0 then Some({}) else
      match DaysIn(items, n - 1)
      case None => None
      case Some(days) =>
        var item := TrimSpace(items[n - 1]);
        if item == "" then Some(days) else
          match ParseInt(item)
          case None => None
          case Some(d) => if d < 0 || d > 6 then None else var day: nat := d; Some(days + {day})
  }

  /** The members of `days` below `n`, in order. */
  function InOrder(days: set<nat>, n: nat): (r: seq<nat>)
    ensures forall d :: d in r <==> d in days && d < n
    ensures forall i, j :: 0 <= i < j < |r| ==> r[i] < r[j]
    ensures forall i :: 0 <= i < |r| ==> r[i] < n
  {
    if n == 0 then [] else if n - 1 in days then InOrder(days, n - 1) + [n - 1] else InOrder(days, n - 1)
  }

  function Weekdays(raw: string): Option<seq<nat>> {
    var items := Split(raw, ',');
    match DaysIn(items, |items|)
    case None => None
    case Some(days) => Some(InOrder(days, 7))
  }

  method ParseWeekdays(raw: string) returns (r: Option<seq<nat>>)
    ensures r == Weekdays(raw)
  {
    hide TrimSpace, ParseInt, Split;
    var items := Split(raw, ',');
    var seen: set<nat> := {};
    for i := 0 to |items|
      invariant DaysIn(items, i) == Some(seen)
      invariant forall d :: d in seen ==> d <= 6
    {
      var item := TrimSpace(items[i]);
      if item == "" {
        continue;
      }
      var n := ParseInt(item);
      if n.None? || n.value < 0 || n.value > 6 {
        DaysStop(items, i + 1, |items|);
        return None;
      }
      var day: nat := n.value;
      seen := seen + {day};
    }
    var days := SortDays(seen);
    return Some(days);
  }

  lemma {:induction false} DaysStop(items: seq<string>, n: nat, m: nat)
    requires n <= m <= |items| && DaysIn(items, n).None?
    ensures DaysIn(items, m).None?
    decreases m
  {
    hide ParseInt, TrimSpace;
    if n < m { DaysStop(items, n, m - 1); }
  }

  /** Collecting a set in any order and sorting it: repeatedly the least of what is left. */
  method SortDays(seen: set<nat>) returns (days: seq<nat>)
    requires forall d :: d in seen ==> d <= 6
    ensures days == InOrder(seen, 7)
  {
    days := [];
    var left := seen;
    while left != {}
      invariant left <= seen
      invariant forall d :: d in days <==> d in seen && d !in left
      invariant forall i, j :: 0 <= i < j < |days| ==> days[i] < days[j]
      invariant forall i, d :: 0 <= i < |days| && d in left ==> days[i] < d
      decreases |left|
    {
      var least := Least(left);
      days := days + [least];
      left := left - {least};
    }
    AscendingInts(days, InOrder(seen, 7));
  }

  method Least(s: set<nat>) returns (m: nat)
    requires s != {}
    ensures m in s && forall d :: d in s ==> m <= d
  {
    m :| m in s;
    var left := s - {m};
    while left != {}
      invariant m in s && left <= s
      invariant forall d :: d in s && d !in left ==> m <= d
      decreases |left|
    {
      var d :| d in left;
      if d < m {
        m := d;
      }
      left := left - {d};
    }
  }

  lemma {:induction false} AscendingInts(a: seq<nat>, b: seq<nat>)
    requires forall i, j :: 0 <= i < j < |a| ==> a[i] < a[j]
    requires forall i, j :: 0 <= i < j < |b| ==> b[i] < b[j]
    requires forall d :: d in a <==> d in b
    ensures a == b
    decreases |a| + |b|
  {
    if a == [] || b == [] {
      NoInts(a);
      NoInts(b);
    } else {
      var x, y := a[|a| - 1], b[|b| - 1];
      assert x in b && y in a && x in a && y in b;
      assert x == y;
      LastInts(a);
      LastInts(b);
      var c, d := a[..|a| - 1], b[..|b| - 1];
      forall e: nat ensures e in c <==> e in d {
        assert e in a <==> e in b;
      }
      AscendingInts(c, d);
      assert a == c + [x] && b == d + [x];
    }
  }

  lemma NoInts(s: seq<nat>)
    ensures (forall d: nat :: d !in s) ==> s == []
  {
    if s != [] {
      var x := s[0];
      assert x in s;
    }
  }

  lemma LastInts(s: seq<nat>)
    requires s != [] && forall i, j :: 0 <= i < j < |s| ==> s[i] < s[j]
    ensures forall d :: d in s[..|s| - 1] <==> d in s && d != s[|s| - 1]
  {
    var front := s[..|s| - 1];
    assert s == front + [s[|s| - 1]];
  }

  function Printed(days: seq<nat>): (r: seq<string>)
    ensures |r| == |days|
  {
    seq(|days|, i requires 0 <= i < |days| => IntToString(days[i]))
  }

  /** formatWeekdays */
  function FormatWeekdays(days: seq<nat>): string {
    Join(Printed(days), ",")
  }

  ghost predicate WeekdayList(days: seq<nat>) {
    && (forall i :: 0 <= i < |days| ==> days[i] <= 6)
    && (forall i, j :: 0 <= i < j < |days| ==> days[i] < days[j])
  }

  lemma PrintedDay(d: nat)
    requires d <= 6
    ensures var s := IntToString(d);
      s != "" && ',' !in s && TrimSpace(s) == s && ParseInt(s) == Some(d)
  {
    var s := IntToString(d);
    assert AllDigits(s) && |s| >= 1;
    assert forall i :: 0 <= i < |s| ==> !IsSpace(s[i]) && s[i] != ',';
    TrimClean(s);
    ParseIntToString(d);
  }

  function Elements(days: seq<nat>, n: nat): (r: set<nat>)
    requires n <= |days|
    ensures forall d :: d in r <==> exists i :: 0 <= i < n && days[i] == d
  {
    if n == 0 then {} else Elements(days, n - 1) + {days[n - 1]}
  }

  lemma {:induction false} PrintedBack(days: seq<nat>, n: nat)
    requires WeekdayList(days) && n <= |days|
    ensures DaysIn(Printed(days), n) == Some(Elements(days, n))
    decreases n
  {
    hide IntToString, TrimSpace, ParseInt;
    if n > 0 {
      PrintedBack(days, n - 1);
      PrintedDay(days[n - 1]);
      assert Printed(days)[n - 1] == IntToString(days[n - 1]);
    }
  }

  /** What validateSchedule stores reads back as the same days. */
  lemma WeekdaysRoundTrip(days: seq<nat>)
    requires WeekdayList(days)
    ensures Weekdays(FormatWeekdays(days)) == Some(days)
  {
    hide IntToString, TrimSpace, ParseInt, DaysIn, InOrder, Split, Join, Elements;
    var found := Elements(days, |days|);
    if days == [] {
      NoDays();
      assert found == {};
    } else {
      forall p | p in Printed(days) ensures ',' !in p {
        var i :| 0 <= i < |days| && Printed(days)[i] == p;
        PrintedDay(days[i]);
      }
      SplitJoin(Printed(days), ',');
      PrintedBack(days, |days|);
    }
    forall d: nat ensures d in InOrder(found, 7) <==> d in days {
    }
    AscendingInts(InOrder(found, 7), days);
  }

  lemma NoDays()
    ensures var items := Split(FormatWeekdays([]), ','); DaysIn(items, |items|) == Some({})
  {
    assert FormatWeekdays([]) == "";
    assert Split("", ',') == [""];
    assert TrimSpace("") == "";
    assert DaysIn([""], 0) == Some({});
  }

  // ----- activity

  /** Minutes since the Unix epoch on the local clock. */
  function LocalMinute(zone: int, at: int): int {
    at / 60000 + zone
  }

  /** time.Weekday of a local day number; 1970-01-01 was a Thursday. */
  function WeekdayOf(day: int): (w: int)
    ensures 0 <= w <= 6
  {
    (day + 4) % 7
  }

  function ActiveAt(s: Schedule, at: int): bool {
    if !s.enabled || at <= 0 || s.zone.None? then false else
      match Weekdays(s.weekdays)
      case None => false
      case Some(days) => ActiveOn(days, s.startMinute, s.endMinute, LocalMinute(s.zone.value, at))
  }

  /** The branches of scheduleActiveAt on the local clock. */
  function ActiveOn(days: seq<nat>, start: int, end: int, m: int): bool {
    var minute, weekday := m % DAY, WeekdayOf(m / DAY);
    if start < end then weekday in days && minute >= start && minute < end
    else if minute >= start then weekday in days
    else minute < end && (weekday + 6) % 7 in days
  }

  /** The window that opens on a selected day: from its start minute to the next end minute. */
  function WindowLength(start: int, end: int): int {
    if start < end then end - start else end - start + DAY
  }

  predicate OpensAt(days: seq<nat>, start: int, day: int, m: int) {
    WeekdayOf(day) in days && m == day * DAY + start
  }

  predicate Covers(days: seq<nat>, start: int, end: int, day: int, m: int) {
    WeekdayOf(day) in days && day * DAY + start <= m < day * DAY + start + WindowLength(start, end)
  }

  ghost predicate InWindow(days: seq<nat>, start: int, end: int, m: int) {
    exists day :: Covers(days, start, end, day, m)
  }

  /** Local minute `m` is the start minute of a selected day. */
  ghost predicate OpensOn(days: seq<nat>, start: int, m: int) {
    exists day :: OpensAt(days, start, day, m)
  }

  ghost predicate Times(start: int, end: int) {
    0 <= start < DAY && 0 <= end < DAY
  }

  /** Only the window of the same day and of the day before can cover a minute. */
  lemma CoveringDay(days: seq<nat>, start: int, end: int, day: int, m: int)
    requires Times(start, end) && Covers(days, start, end, day, m)
    ensures day == m / DAY || day == m / DAY - 1
  {
  }

  lemma PreviousWeekday(day: int)
    ensures (WeekdayOf(day) + 6) % 7 == WeekdayOf(day - 1)
  {
  }

  /** scheduleActiveAt is membership in the union of the selected days' windows, overnight
      windows included. */
  lemma ActiveIffInWindow(days: seq<nat>, start: int, end: int, m: int)
    requires Times(start, end)
    ensures ActiveOn(days, start, end, m) <==> InWindow(days, start, end, m)
  {
    hide WeekdayOf;
    var day := m / DAY;
    PreviousWeekday(day);
    if InWindow(days, start, end, m) {
      var d :| Covers(days, start, end, d, m);
      CoveringDay(days, start, end, d, m);
    }
    if ActiveOn(days, start, end, m) {
      if start >= end && m % DAY < start {
        assert Covers(days, start, end, day - 1, m);
      } else {
        assert Covers(days, start, end, day, m);
      }
    }
  }

  /** The same for a stored schedule at any time, in milliseconds since the epoch. */
  lemma ScheduleActiveIff(s: Schedule, at: int)
    requires Times(s.startMinute, s.endMinute)
    ensures ActiveAt(s, at) <==>
      && s.enabled && at > 0 && s.zone.Some? && Weekdays(s.weekdays).Some?
      && InWindow(Weekdays(s.weekdays).value, s.startMinute, s.endMinute, LocalMinute(s.zone.value, at))
  {
    hide Weekdays, InWindow, ActiveOn;
    if s.zone.Some? && Weekdays(s.weekdays).Some? {
      ActiveIffInWindow(Weekdays(s.weekdays).value, s.startMinute, s.endMinute, LocalMinute(s.zone.value, at));
    }
  }

  /** The minute a schedule turns active is exactly the start minute of a selected day. */
  lemma EdgeIffOpens(days: seq<nat>, start: int, end: int, m: int)
    requires Times(start, end) && start != end
    ensures InWindow(days, start, end, m) && !InWindow(days, start, end, m - 1) <==> OpensOn(days, start, m)
  {
    if InWindow(days, start, end, m) && !InWindow(days, start, end, m - 1) {
      var day :| Covers(days, start, end, day, m);
      assert !Covers(days, start, end, day, m - 1);
      assert OpensAt(days, start, day, m);
    }
    if OpensOn(days, start, m) {
      var day :| OpensAt(days, start, day, m);
      assert Covers(days, start, end, day, m);
      if InWindow(days, start, end, m - 1) {
        var d :| Covers(days, start, end, d, m - 1);
        Disjoint(days, start, end, day, d);
      }
    }
  }

  /** No other window reaches the minute before a day's window opens. */
  lemma Disjoint(days: seq<nat>, start: int, end: int, day: int, d: int)
    requires Times(start, end) && start != end
    ensures !Covers(days, start, end, d, day * DAY + start - 1)
  {
    if d <= day - 1 {
      assert d * DAY <= (day - 1) * DAY;
    } else {
      assert d * DAY >= day * DAY;
    }
  }

  // ----- the next activation

  const SEARCH_MINUTES: nat := 8 * 24 * 60

  /** The search of scheduleNextActive from its i-th candidate on; `first` is the first one, in
      minutes since the epoch. */
  function SearchFrom(s: Schedule, first: int, i: nat): int
    decreases SEARCH_MINUTES - i
  {
    if i >= SEARCH_MINUTES then 0
    else if ActiveAt(s, (first + i) * 60000) && !ActiveAt(s, (first + i - 1) * 60000) then (first + i) * 60000
    else SearchFrom(s, first, i + 1)
  }

  function NextActive(s: Schedule, at: int): int {
    if !s.enabled || at <= 0 || s.zone.None? then 0 else SearchFrom(s, at / 60000 + 1, 0)
  }

  method ScheduleNextActive(s: Schedule, at: int) returns (r: int)
    ensures r == NextActive(s, at)
  {
    hide ActiveAt;
    if !s.enabled || at <= 0 || s.zone.None? {
      return 0;
    }
    var start := at / 60000 + 1;
    for i := 0 to SEARCH_MINUTES
      invariant SearchFrom(s, start, 0) == SearchFrom(s, start, i)
    {
      var candidate := start + i;
      if ActiveAt(s, candidate * 60000) && !ActiveAt(s, (candidate - 1) * 60000) {
        return candidate * 60000;
      }
    }
    return 0;
  }

  /** validateSchedule accepted it, and it is enabled. */
  ghost predicate Usable(s: Schedule) {
    && s.enabled && s.zone.Some? && Times(s.startMinute, s.endMinute) && s.startMinute != s.endMinute
    && Weekdays(s.weekdays).Some? && Weekdays(s.weekdays).value != []
  }

  /** Minute `c` since the epoch opens a selected day's window. */
  ghost predicate Opens(s: Schedule, c: int)
    requires Usable(s)
  {
    OpensOn(Weekdays(s.weekdays).value, s.startMinute, c + s.zone.value)
  }

  /** The schedule on whole minutes after the epoch. */
  ghost predicate Within(s: Schedule, c: int)
    requires Usable(s)
  {
    InWindow(Weekdays(s.weekdays).value, s.startMinute, s.endMinute, c + s.zone.value)
  }

  lemma ActiveMinute(s: Schedule, c: int)
    requires Usable(s)
    ensures ActiveAt(s, c * 60000) <==> c > 0 && Within(s, c)
  {
    hide Weekdays, InWindow, ActiveOn;
    assert (c * 60000) / 60000 == c;
    ActiveIffInWindow(Weekdays(s.weekdays).value, s.startMinute, s.endMinute, c + s.zone.value);
  }

  /** The test of the search loop, from the second minute after the epoch on. */
  lemma SearchTest(s: Schedule, c: int)
    requires Usable(s) && c >= 2
    ensures ActiveAt(s, c * 60000) && !ActiveAt(s, (c - 1) * 60000) <==> Opens(s, c)
  {
    hide Weekdays, InWindow, ActiveAt, OpensOn;
    ActiveMinute(s, c);
    ActiveMinute(s, c - 1);
    EdgeIffOpens(Weekdays(s.weekdays).value, s.startMinute, s.endMinute, c + s.zone.value);
  }

  /** Within seven days of any minute a selected day opens. */
  lemma SomeOpening(s: Schedule, c: int) returns (n: int)
    requires Usable(s)
    ensures c < n <= c + 7 * DAY && Opens(s, n)
  {
    hide Weekdays;
    var days := Weekdays(s.weekdays).value;
    WeekdaysRange(s.weekdays);
    var w := days[0];
    var m := c + s.zone.value;
    var d := (m - s.startMinute) / DAY + 1;
    var k := (w - WeekdayOf(d)) % 7;
    var day := d + k;
    assert WeekdayOf(day) == w;
    n := day * DAY + s.startMinute - s.zone.value;
    assert OpensAt(days, s.startMinute, day, n + s.zone.value);
  }

  lemma WeekdaysRange(raw: string)
    ensures Weekdays(raw).Some? ==> forall i :: 0 <= i < |Weekdays(raw).value| ==> 0 <= Weekdays(raw).value[i] <= 6
  {
  }

  lemma {:induction false} SearchFinds(s: Schedule, first: int, i: nat, n: int)
    requires Usable(s) && first + i >= 2 && first + i <= n < first + SEARCH_MINUTES && Opens(s, n)
    requires forall c :: first + i <= c < n ==> !Opens(s, c)
    ensures SearchFrom(s, first, i) == n * 60000
    decreases SEARCH_MINUTES - i
  {
    hide Opens, ActiveAt, Usable;
    SearchTest(s, first + i);
    if first + i < n {
      SearchFinds(s, first, i + 1, n);
    }
  }

  /** The least minute after `c` that opens a selected day. */
  lemma LeastOpening(s: Schedule, c: int) returns (n: int)
    requires Usable(s)
    ensures c < n <= c + 7 * DAY && Opens(s, n) && forall x :: c < x < n ==> !Opens(s, x)
  {
    hide Usable, Opens;
    var bound := SomeOpening(s, c);
    n := c + 1;
    while !Opens(s, n)
      invariant c < n <= bound && forall x :: c < x < n ==> !Opens(s, x)
      decreases bound - n
    {
      n := n + 1;
    }
  }

  /** From one minute after the epoch on, scheduleNextActive returns the least later minute at
      which a selected day's window opens; eight days of search always find it. */
  lemma NextActiveIsLeast(s: Schedule, at: int) returns (n: int)
    requires Usable(s) && at >= 60000
    ensures NextActive(s, at) == n * 60000 > at
    ensures Opens(s, n) && forall x :: at / 60000 < x < n ==> !Opens(s, x)
  {
    hide Opens, SearchFrom;
    n := LeastOpening(s, at / 60000);
    SearchFinds(s, at / 60000 + 1, 0, n);
  }

  /** Within the first minute of the epoch the answer is the least opening exactly when the
      schedule is not already active at the epoch and one minute later: the time 0 itself
      counts as inactive, so such a window seems to open at minute 1. */
  lemma NextActiveAtEpoch(s: Schedule, at: int)
    requires Usable(s) && 0 < at < 60000
    ensures (exists n :: NextActive(s, at) == n * 60000 && Opens(s, n) && n > 0 && forall x :: 0 < x < n ==> !Opens(s, x))
      <==> !(Within(s, 0) && Within(s, 1))
  {
    hide Opens, Within, ActiveAt, Usable;
    ActiveMinute(s, 0);
    ActiveMinute(s, 1);
    EdgeAt(s, 1);
    assert at / 60000 == 0;
    if Within(s, 1) {
      assert SearchFrom(s, 1, 0) == 60000;
      UsableActive(s, at);
      if !Within(s, 0) {
        assert NextActive(s, at) == 1 * 60000;
      }
    } else {
      var n := LeastOpening(s, 1);
      SearchFinds(s, 1, 1, n);
      assert SearchFrom(s, 1, 0) == SearchFrom(s, 1, 1);
      UsableActive(s, at);
    }
  }

  /** Such a schedule: the hour from midnight on a Thursday, the epoch's day, in UTC. */
  lemma WrongAtEpoch()
    ensures var s := Schedule(Some(0), "4", 0, 60, true);
      Usable(s) && NextActive(s, 1) == 60000 && !Opens(s, 1)
  {
    hide Weekdays, ActiveAt, FormatWeekdays, NextActive;
    var s := Schedule(Some(0), "4", 0, 60, true);
    ThursdayText();
    WeekdaysRoundTrip([4]);
    assert Covers([4], 0, 60, 0, 0) && Covers([4], 0, 60, 0, 1);
    assert Within(s, 1);
    ActiveMinute(s, 0);
    ActiveMinute(s, 1);
    UsableActive(s, 1);
    assert forall day :: day * DAY != 1;
  }

  lemma ThursdayText()
    ensures FormatWeekdays([4]) == "4"
  {
  }

  lemma EdgeAt(s: Schedule, c: int)
    requires Usable(s)
    ensures Within(s, c) && !Within(s, c - 1) <==> Opens(s, c)
  {
    hide Weekdays, InWindow, OpensOn;
    EdgeIffOpens(Weekdays(s.weekdays).value, s.startMinute, s.endMinute, c + s.zone.value);
  }

  lemma UsableActive(s: Schedule, at: int)
    requires Usable(s) && at > 0
    ensures NextActive(s, at) == SearchFrom(s, at / 60000 + 1, 0)
  {
  }
}
