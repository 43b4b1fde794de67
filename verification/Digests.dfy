/** The daily digest and the weekly report: whom they reach, what they count, what they report. */
module Digests {
  import opened Prelude
  import opened Settings
  import opened Notifications
  import opened GroupBy

  // ----- Days -----

  /** Days since 1 January 1970. */
  function DayOf(instant: int): int {
    instant / DAY
  }

  /** Day of the week as Postgres extracts it: 0 is Sunday. Day 0 was a Thursday. */
  function Dow(day: int): nat {
    (day + 4) % 7
  }

  /** Day of the week counted from Monday, which is how the report names days. */
  function Weekday(day: int): nat {
    (day + 3) % 7
  }

  /** The index of the reported day in the list of names, which begins with Monday. */
  function NameIndex(dow: nat): nat {
    (dow - 1) % 7
  }

  /** The name picked for a Postgres day of the week is the name of that day. */
  lemma NamesAreRight(day: int)
    ensures NameIndex(Dow(day)) == Weekday(day)
  {}

  /** Both numberings run through the week, and agree with the calendar: day 0, 1 January 1970, was a Thursday. */
  lemma WeekdaysFollowTheCalendar(day: int)
    ensures Dow(0) == 4 && Weekday(0) == 3
    ensures Dow(day + 1) == (Dow(day) + 1) % 7 && Weekday(day + 1) == (Weekday(day) + 1) % 7
  {}

  // ----- Counting -----

  predicate Counts(n: Notification, user: UserId, from: int, until: int) {
    n.kind == BadgeCreation && n.user == user && from <= n.at < until
  }

  /** Creation notifications of the user at instants in [from, until). */
  function CountIn(inbox: seq<Notification>, user: UserId, from: int, until: int): nat {
    if inbox == [] then 0 else
      CountIn(inbox[..|inbox| - 1], user, from, until)
      + if Counts(inbox[|inbox| - 1], user, from, until) then 1 else 0
  }

  /** The creation notifications of the user in the window, by position. */
  function Creations(inbox: seq<Notification>, user: UserId, from: int, until: int): set<int> {
    set i | 0 <= i < |inbox| && inbox[i].kind == BadgeCreation && inbox[i].user == user && from <= inbox[i].at < until
  }

  /** A count is the number of the user's creation notifications in the half-open window. */
  lemma {:induction false} CountIsSize(inbox: seq<Notification>, user: UserId, from: int, until: int)
    ensures CountIn(inbox, user, from, until) == |Creations(inbox, user, from, until)|
  {
    if inbox != [] {
      var k := |inbox| - 1;
      CountIsSize(inbox[..k], user, from, until);
      assert Creations(inbox, user, from, until)
          == Creations(inbox[..k], user, from, until)
             + if inbox[k].kind == BadgeCreation && inbox[k].user == user && from <= inbox[k].at < until then {k}
               else {};
    }
  }

  /** The day-of-week column of the rows the weekly query selects for the user. */
  function DowColumn(inbox: seq<Notification>, user: UserId, from: int, until: int): seq<nat> {
    if inbox == [] then [] else
      DowColumn(inbox[..|inbox| - 1], user, from, until)
      + if Counts(inbox[|inbox| - 1], user, from, until) then [Dow(DayOf(inbox[|inbox| - 1].at))] else []
  }

  lemma {:induction false} WindowsJoin(inbox: seq<Notification>, user: UserId, from: int, mid: int, until: int)
    requires from <= mid <= until
    ensures CountIn(inbox, user, from, until) == CountIn(inbox, user, from, mid) + CountIn(inbox, user, mid, until)
  {
    if inbox != [] {
      WindowsJoin(inbox[..|inbox| - 1], user, from, mid, until);
    }
  }

  function DailyCount(inbox: seq<Notification>, user: UserId, day: int): nat {
    CountIn(inbox, user, day * DAY, (day + 1) * DAY)
  }

  function SumOfDays(inbox: seq<Notification>, user: UserId, first: int, days: nat): nat {
    if days == 0 then 0 else
      SumOfDays(inbox, user, first, days - 1) + DailyCount(inbox, user, first + days - 1)
  }

  /** A window of whole days counts what its daily windows count together. */
  lemma {:induction false} DaysAddUp(inbox: seq<Notification>, user: UserId, first: int, days: nat)
    ensures CountIn(inbox, user, first * DAY, (first + days) * DAY) == SumOfDays(inbox, user, first, days)
    decreases days
  {
    if days == 0 {
      EmptyWindow(inbox, user, first * DAY);
    } else {
      DaysAddUp(inbox, user, first, days - 1);
      WindowsJoin(inbox, user, first * DAY, (first + days - 1) * DAY, (first + days) * DAY);
    }
  }

  lemma {:induction false} EmptyWindow(inbox: seq<Notification>, user: UserId, at: int)
    ensures CountIn(inbox, user, at, at) == 0
  {
    if inbox != [] { EmptyWindow(inbox[..|inbox| - 1], user, at); }
  }

  lemma {:induction false} ColumnLength(inbox: seq<Notification>, user: UserId, from: int, until: int)
    ensures |DowColumn(inbox, user, from, until)| == CountIn(inbox, user, from, until)
  {
    if inbox != [] { ColumnLength(inbox[..|inbox| - 1], user, from, until); }
  }

  lemma OccurrencesOfAppended(keys: seq<nat>, last: nat, k: nat)
    ensures Occurrences(keys + [last], k) == Occurrences(keys, k) + if last == k then 1 else 0
  {
    assert (keys + [last])[..|keys|] == keys;
  }

  /** In a window of seven days each day of the week stands for one day. */
  lemma DowIsOneDay(first: int, day: int, instant: int)
    requires first <= day < first + 7 && first * DAY <= instant < (first + 7) * DAY
    ensures Dow(DayOf(instant)) == Dow(day) <==> day * DAY <= instant < (day + 1) * DAY
  {
    assert first <= DayOf(instant) < first + 7;
  }

  /** Grouping the week's rows by day of the week counts each day's window. */
  lemma {:induction false} ColumnCountsDays(inbox: seq<Notification>, user: UserId, first: int, day: int)
    requires first <= day < first + 7
    ensures Occurrences(DowColumn(inbox, user, first * DAY, (first + 7) * DAY), Dow(day))
            == DailyCount(inbox, user, day)
  {
    if inbox != [] {
      var n := inbox[|inbox| - 1];
      var column := DowColumn(inbox[..|inbox| - 1], user, first * DAY, (first + 7) * DAY);
      ColumnCountsDays(inbox[..|inbox| - 1], user, first, day);
      if Counts(n, user, first * DAY, (first + 7) * DAY) {
        OccurrencesOfAppended(column, Dow(DayOf(n.at)), Dow(day));
        DowIsOneDay(first, day, n.at);
      } else {
        assert DowColumn(inbox, user, first * DAY, (first + 7) * DAY) == column;
      }
    }
  }

  // ----- Targets -----

  /** Users opted in, and owners without a preferences row. */
  function Targets(prefs: PrefTable, owners: set<UserId>, kind: Kind): set<UserId> {
    (set u | u in prefs && prefs[u][ToggleOf(kind)]) + (owners - prefs.Keys)
  }

  /** The gate never suppresses a target. */
  lemma TargetsAreAllowed(prefs: PrefTable, owners: set<UserId>, kind: Kind, user: UserId)
    requires user in Targets(prefs, owners, kind)
    ensures Allows(prefs, user, kind)
  {}

  /** Reports are not badge creations: they never feed a count. */
  lemma {:induction false} ReportsFeedNoCount(
    inbox: seq<Notification>, reports: seq<Notification>, user: UserId, from: int, until: int)
    requires forall i :: 0 <= i < |reports| ==> reports[i].kind != BadgeCreation
    ensures CountIn(inbox + reports, user, from, until) == CountIn(inbox, user, from, until)
    decreases |reports|
  {
    if reports == [] {
      assert inbox + reports == inbox;
    } else {
      var n := |reports| - 1;
      assert (inbox + reports)[..|inbox| + n] == inbox + reports[..n];
      ReportsFeedNoCount(inbox, reports[..n], user, from, until);
    }
  }

  lemma {:induction false} ReportsFeedNoColumn(
    inbox: seq<Notification>, reports: seq<Notification>, user: UserId, from: int, until: int)
    requires forall i :: 0 <= i < |reports| ==> reports[i].kind != BadgeCreation
    ensures DowColumn(inbox + reports, user, from, until) == DowColumn(inbox, user, from, until)
    decreases |reports|
  {
    if reports == [] {
      assert inbox + reports == inbox;
    } else {
      var n := |reports| - 1;
      assert (inbox + reports)[..|inbox| + n] == inbox + reports[..n];
      ReportsFeedNoColumn(inbox, reports[..n], user, from, until);
    }
  }

  // ----- Reports -----

  /** The entry is the count of a day of the window on which something was created. */
  ghost predicate IsDayEntry(g: Group, inbox: seq<Notification>, user: UserId, first: int) {
    exists day :: first <= day < first + 7 && g == (Dow(day), DailyCount(inbox, user, day)) && g.1 > 0
  }

  /**
   What a weekly report must say: the total, the day of the week of the busiest
   day of the window, least day number first among equals, and the count of each
   day that has one and of no other, in that order.
   */
  ghost predicate IsWeeklyReport(p: Payload, inbox: seq<Notification>, user: UserId, first: int) {
    && p.Report?
    && p.total == SumOfDays(inbox, user, first, 7)
    && p.total == Total(p.perDay)
    && Ranked(p.perDay)
    && (forall i :: 0 <= i < |p.perDay| ==> IsDayEntry(p.perDay[i], inbox, user, first))
    && (forall day :: first <= day < first + 7 && DailyCount(inbox, user, day) > 0 ==>
          (Dow(day), DailyCount(inbox, user, day)) in p.perDay)
    && (exists top :: && first <= top < first + 7
                      && p.topDay == Weekday(top)
                      && DailyCount(inbox, user, top) > 0
                      && forall day :: first <= day < first + 7 ==>
                           || DailyCount(inbox, user, day) < DailyCount(inbox, user, top)
                           || (DailyCount(inbox, user, day) == DailyCount(inbox, user, top) && Dow(top) <= Dow(day)))
  }

  /** The day of a seven-day window with a given day of the week. */
  function DayWith(first: int, dow: nat): (day: int)
    requires dow < 7
    ensures first <= day < first + 7 && Dow(day) == dow
  {
    first + (dow - Dow(first)) % 7
  }

  /** What the query, its first row and the list of names yield is such a report. */
  lemma GroupsMakeReport(inbox: seq<Notification>, user: UserId, first: int, groups: seq<Group>)
    requires var column := DowColumn(inbox, user, first * DAY, (first + 7) * DAY);
             IsGrouping(groups, column) && Ranked(groups) && column != []
    ensures groups != []
    ensures IsWeeklyReport(
              Report(CountIn(inbox, user, first * DAY, (first + 7) * DAY), NameIndex(groups[0].0), groups),
              inbox, user, first)
  {
    var column := DowColumn(inbox, user, first * DAY, (first + 7) * DAY);
    assert column[0] in column;
    GroupingTotals(groups, column);
    ColumnLength(inbox, user, first * DAY, (first + 7) * DAY);
    DaysAddUp(inbox, user, first, 7);
    ColumnsAreDows(inbox, user, first * DAY, (first + 7) * DAY);
    forall day | first <= day < first + 7
      ensures DailyCount(inbox, user, day) == Occurrences(column, Dow(day))
    {
      ColumnCountsDays(inbox, user, first, day);
    }
    forall day | first <= day < first + 7 && DailyCount(inbox, user, day) > 0
      ensures (Dow(day), DailyCount(inbox, user, day)) in groups
    {
      OccursIffIn(column, Dow(day));
      var i :| 0 <= i < |groups| && groups[i].0 == Dow(day);
      assert groups[i] == (Dow(day), DailyCount(inbox, user, day));
    }
    forall i | 0 <= i < |groups|
      ensures IsDayEntry(groups[i], inbox, user, first)
    {
      OccursIffIn(column, groups[i].0);
      var day := DayWith(first, groups[i].0);
      assert groups[i] == (Dow(day), DailyCount(inbox, user, day));
    }
    OccursIffIn(column, groups[0].0);
    var top := DayWith(first, groups[0].0);
    NamesAreRight(top);
    forall day | first <= day < first + 7
      ensures || DailyCount(inbox, user, day) < DailyCount(inbox, user, top)
              || (DailyCount(inbox, user, day) == DailyCount(inbox, user, top) && Dow(top) <= Dow(day))
    {
      if DailyCount(inbox, user, day) > 0 {
        var i :| 0 <= i < |groups| && groups[i] == (Dow(day), DailyCount(inbox, user, day));
        if i > 0 { assert Precedes(groups[0], groups[i]); }
      }
    }
  }

  lemma {:induction false} ColumnsAreDows(inbox: seq<Notification>, user: UserId, from: int, until: int)
    ensures forall k :: k in DowColumn(inbox, user, from, until) ==> k < 7
  {
    if inbox != [] { ColumnsAreDows(inbox[..|inbox| - 1], user, from, until); }
  }
}
