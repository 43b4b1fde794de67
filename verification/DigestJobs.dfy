/** The scheduled jobs that write the digests: app/workers/digest_jobs.py. */
module DigestJobs {
  import opened Settings
  import opened Notifications
  import opened GroupBy
  import opened Digests

  datatype Summary = Summary(sent: nat, skipped: nat, total: nat)

  /** The days a job run at an instant looks back on: today, or the seven days that end with it. */
  function FirstDay(kind: Kind, now: int): int {
    if kind == WeeklyReport then DayOf(now) - 6 else DayOf(now)
  }

  function From(kind: Kind, now: int): int { FirstDay(kind, now) * DAY }

  function Until(now: int): int { (DayOf(now) + 1) * DAY }

  /** The users of a set with something to report. */
  function Active(inbox: seq<Notification>, users: set<UserId>, kind: Kind, now: int): set<UserId> {
    set u | u in users && CountIn(inbox, u, From(kind, now), Until(now)) > 0
  }

  /** A notification that reports on its user, for its kind and instant, what the inbox holds. */
  ghost predicate IsRight(n: Notification, inbox: seq<Notification>) {
    && !n.isRead
    && match n.kind
       case DailyDigest => n.payload == Digest(DailyCount(inbox, n.user, DayOf(n.at)))
       case WeeklyReport => IsWeeklyReport(n.payload, inbox, n.user, FirstDay(n.kind, n.at))
       case BadgeCreation => false
  }

  function Recipients(reports: seq<Notification>): set<UserId> {
    set n | n in reports :: n.user
  }

  /** One right report for each of these users, and nothing else. */
  ghost predicate OneFor(
    reports: seq<Notification>, users: set<UserId>, before: seq<Notification>, kind: Kind, now: int)
  {
    && Recipients(reports) == users
    && |reports| == |users|
    && (forall n :: n in reports ==> n.kind == kind && n.at == now && IsRight(n, before))
    && (forall i, j :: 0 <= i < j < |reports| ==> reports[i].user != reports[j].user)
  }

  /** The new rows are one right report for each of these users who has something to report. */
  ghost predicate Reported(
    before: seq<Notification>, inbox: seq<Notification>, users: set<UserId>, kind: Kind, now: int,
    reports: seq<Notification>)
  {
    && inbox == before + reports
    && OneFor(reports, Active(before, users, kind, now), before, kind, now)
  }

  lemma NoneReported(inbox: seq<Notification>, kind: Kind, now: int)
    ensures Reported(inbox, inbox, {}, kind, now, [])
  {
    assert Recipients([]) == {};
    assert inbox + [] == inbox;
  }

  lemma OneSkipped(
    before: seq<Notification>, inbox: seq<Notification>, users: set<UserId>, kind: Kind, now: int,
    reports: seq<Notification>, user: UserId)
    requires Reported(before, inbox, users, kind, now, reports)
    requires CountIn(before, user, From(kind, now), Until(now)) == 0
    ensures Reported(before, inbox, users + {user}, kind, now, reports)
  {
    hide OneFor;
    assert Active(before, users + {user}, kind, now) == Active(before, users, kind, now);
  }

  lemma RecipientsGrow(reports: seq<Notification>, n: Notification)
    ensures Recipients(reports + [n]) == Recipients(reports) + {n.user}
    ensures forall i :: 0 <= i < |reports| ==> reports[i].user in Recipients(reports)
  {
    assert forall m :: m in reports + [n] <==> m in reports || m == n;
    assert forall i :: 0 <= i < |reports| ==> reports[i] in reports;
  }

  lemma OneMoreFor(reports: seq<Notification>, users: set<UserId>, before: seq<Notification>, n: Notification)
    requires OneFor(reports, users, before, n.kind, n.at) && IsRight(n, before) && n.user !in users
    ensures OneFor(reports + [n], users + {n.user}, before, n.kind, n.at)
  {
    hide IsRight, Recipients;
    RecipientsGrow(reports, n);
  }

  lemma OneMore(
    before: seq<Notification>, inbox: seq<Notification>, users: set<UserId>, reports: seq<Notification>,
    n: Notification)
    requires Reported(before, inbox, users, n.kind, n.at, reports) && n.user !in users
    requires CountIn(before, n.user, From(n.kind, n.at), Until(n.at)) > 0
    requires IsRight(n, before)
    ensures Reported(before, inbox + [n], users + {n.user}, n.kind, n.at, reports + [n])
  {
    hide CountIn, IsRight, OneFor;
    var active := Active(before, users, n.kind, n.at);
    assert Active(before, users + {n.user}, n.kind, n.at) == active + {n.user};
    OneMoreFor(reports, active, before, n);
    assert inbox + [n] == before + (reports + [n]);
  }

  /** Reports leave every count and every day-of-week column of every window as they were. */
  lemma ReportsFeedNothing(
    before: seq<Notification>, inbox: seq<Notification>, users: set<UserId>, kind: Kind, now: int,
    reports: seq<Notification>)
    requires Reported(before, inbox, users, kind, now, reports)
    ensures |reports| == |Active(before, users, kind, now)|
    ensures forall user, from, until :: CountIn(inbox, user, from, until) == CountIn(before, user, from, until)
    ensures forall user, from, until :: DowColumn(inbox, user, from, until) == DowColumn(before, user, from, until)
  {
    forall i | 0 <= i < |reports|
      ensures reports[i].kind != BadgeCreation
    {
      assert reports[i] in reports;
    }
    forall user, from, until
      ensures CountIn(inbox, user, from, until) == CountIn(before, user, from, until)
      ensures DowColumn(inbox, user, from, until) == DowColumn(before, user, from, until)
    {
      ReportsFeedNoCount(before, reports, user, from, until);
      ReportsFeedNoColumn(before, reports, user, from, until);
    }
  }

  /** Rows in the window, grouped and counted by user. */
  method CountByUser(inbox: seq<Notification>, users: set<UserId>, from: int, until: int)
    returns (counts: map<UserId, nat>)
    ensures forall u :: u in users ==> CountIn(inbox, u, from, until) == if u in counts then counts[u] else 0
  {
    counts := map[];
    for i := 0 to |inbox|
      invariant forall u :: u in users ==>
                  CountIn(inbox[..i], u, from, until) == if u in counts then counts[u] else 0
    {
      assert inbox[..i + 1][..i] == inbox[..i];
      var n := inbox[i];
      if n.kind == BadgeCreation && from <= n.at < until && n.user in users {
        counts := counts[n.user := (if n.user in counts then counts[n.user] else 0) + 1];
      }
    }
    assert inbox[..|inbox|] == inbox;
  }

  method SelectDows(inbox: seq<Notification>, user: UserId, from: int, until: int) returns (column: seq<nat>)
    ensures column == DowColumn(inbox, user, from, until)
  {
    column := [];
    for i := 0 to |inbox|
      invariant column == DowColumn(inbox[..i], user, from, until)
    {
      assert inbox[..i + 1][..i] == inbox[..i];
      if Counts(inbox[i], user, from, until) {
        column := column + [Dow(DayOf(inbox[i].at))];
      }
    }
    assert inbox[..|inbox|] == inbox;
  }

  /** Opted-in users, together with the badge owners who have no preferences row. */
  method TargetUsers(prefs: PrefTable, owners: set<UserId>, kind: Kind) returns (targets: set<UserId>)
    ensures targets == Targets(prefs, owners, kind)
  {
    var optedIn := set u | u in prefs && prefs[u][ToggleOf(kind)];
    var defaultedIn := owners - prefs.Keys;
    targets := optedIn + defaultedIn;
  }

  lemma DigestIsRight(n: Notification, inbox: seq<Notification>)
    requires n.kind == DailyDigest && !n.isRead
    requires n.payload == Digest(CountIn(inbox, n.user, From(DailyDigest, n.at), Until(n.at)))
    ensures IsRight(n, inbox)
  {}

  /** What the weekly job says of a user with something to report. */
  method WeeklyPayload(ghost before: seq<Notification>, inbox: seq<Notification>, user: UserId, now: int, total: nat)
    returns (p: Payload)
    requires total > 0 && total == CountIn(before, user, From(WeeklyReport, now), Until(now))
    requires DowColumn(inbox, user, From(WeeklyReport, now), Until(now))
             == DowColumn(before, user, From(WeeklyReport, now), Until(now))
    ensures IsRight(Notification(user, WeeklyReport, p, now, false), before)
  {
    var column := SelectDows(inbox, user, From(WeeklyReport, now), Until(now));
    ColumnLength(before, user, From(WeeklyReport, now), Until(now));
    var perDay := GroupAndRank(column);
    hide IsGrouping, Ranked, IsWeeklyReport;
    GroupsMakeReport(before, user, FirstDay(WeeklyReport, now), perDay);
    p := Report(total, NameIndex(perDay[0].0), perDay);
  }

  // ----- Who gets a report, and what it says -----

  /** A creation notification of the user on one of the days from `first` to today. */
  ghost predicate CreatedSince(inbox: seq<Notification>, user: UserId, first: int, now: int) {
    exists i :: 0 <= i < |inbox| && OnDays(inbox[i], user, first, now)
  }

  predicate OnDays(n: Notification, user: UserId, first: int, now: int) {
    n.kind == BadgeCreation && n.user == user && first <= n.at / DAY <= now / DAY
  }

  function Since(inbox: seq<Notification>, user: UserId, first: int, now: int): set<int> {
    set i | 0 <= i < |inbox| && OnDays(inbox[i], user, first, now)
  }

  /** One of the new rows is for the user. */
  ghost predicate Reaches(reports: seq<Notification>, user: UserId) {
    exists i :: 0 <= i < |reports| && reports[i].user == user
  }

  lemma ReportedIs(
    before: seq<Notification>, inbox: seq<Notification>, users: set<UserId>, kind: Kind, now: int,
    reports: seq<Notification>)
    requires Reported(before, inbox, users, kind, now, reports)
    ensures inbox == before + reports && |reports| == |Active(before, users, kind, now)|
    ensures forall n :: n in reports ==> !n.isRead
  {}

  lemma CountSince(inbox: seq<Notification>, user: UserId, first: int, now: int)
    ensures CountIn(inbox, user, first * DAY, (now / DAY + 1) * DAY) == |Since(inbox, user, first, now)|
    ensures |Since(inbox, user, first, now)| > 0 <==> CreatedSince(inbox, user, first, now)
  {
    CountIsSize(inbox, user, first * DAY, (now / DAY + 1) * DAY);
    forall i | 0 <= i < |inbox|
      ensures first * DAY <= inbox[i].at < (now / DAY + 1) * DAY <==> first <= inbox[i].at / DAY <= now / DAY
    {}
    assert Creations(inbox, user, first * DAY, (now / DAY + 1) * DAY) == Since(inbox, user, first, now);
    if CreatedSince(inbox, user, first, now) {
      var i :| 0 <= i < |inbox| && OnDays(inbox[i], user, first, now);
      assert i in Since(inbox, user, first, now);
    }
    if |Since(inbox, user, first, now)| > 0 {
      var i :| i in Since(inbox, user, first, now);
    }
  }

  lemma ReachesActive(
    before: seq<Notification>, inbox: seq<Notification>, users: set<UserId>, kind: Kind, now: int,
    reports: seq<Notification>, user: UserId)
    requires Reported(before, inbox, users, kind, now, reports)
    ensures Reaches(reports, user) <==>
              user in users && CountIn(before, user, From(kind, now), Until(now)) > 0
  {
    assert Reaches(reports, user) <==> user in Recipients(reports);
    hide CountIn, From, Until, IsRight;
  }

  /**
   A daily digest goes to a user exactly if they have a creation today and either have
   turned digests on or have no preferences row and own a badge; it carries the number
   of today's creations.
   */
  lemma DailyGoesTo(
    before: seq<Notification>, inbox: seq<Notification>, prefs: PrefTable, owners: set<UserId>, now: int,
    reports: seq<Notification>)
    requires Reported(before, inbox, Targets(prefs, owners, DailyDigest), DailyDigest, now, reports)
    ensures forall user: UserId :: Reaches(reports, user) <==>
              && CreatedSince(before, user, now / DAY, now)
              && (if user in prefs then prefs[user][NotifyDailyDigest] else user in owners)
    ensures forall n :: n in reports ==>
              n.kind == DailyDigest && n.at == now && n.payload == Digest(|Since(before, n.user, now / DAY, now)|)
  {
    forall user: UserId
      ensures Reaches(reports, user) <==>
                && CreatedSince(before, user, now / DAY, now)
                && (if user in prefs then prefs[user][NotifyDailyDigest] else user in owners)
    {
      ReachesActive(before, inbox, Targets(prefs, owners, DailyDigest), DailyDigest, now, reports, user);
      CountSince(before, user, now / DAY, now);
      hide Reported, CountIn, CreatedSince, Reaches, Since;
    }
    forall n | n in reports
      ensures n.kind == DailyDigest && n.at == now && n.payload == Digest(|Since(before, n.user, now / DAY, now)|)
    {
      CountSince(before, n.user, now / DAY, now);
      hide CountIn, CreatedSince, Reaches, Since;
    }
  }

  lemma WeeklyTotal(n: Notification, before: seq<Notification>)
    requires n.kind == WeeklyReport && IsRight(n, before)
    ensures n.payload.Report? && n.payload.total == |Since(before, n.user, n.at / DAY - 6, n.at)|
  {
    CountSince(before, n.user, n.at / DAY - 6, n.at);
    DaysAddUp(before, n.user, n.at / DAY - 6, 7);
    hide CountIn, Since, SumOfDays, DailyCount, IsDayEntry;
  }

  /**
   A weekly report goes to a user exactly if they have a creation in the seven days that
   end with today and either have turned reports on or have no preferences row and own a
   badge; its total is the number of those creations.
   */
  lemma WeeklyGoesTo(
    before: seq<Notification>, inbox: seq<Notification>, prefs: PrefTable, owners: set<UserId>, now: int,
    reports: seq<Notification>)
    requires Reported(before, inbox, Targets(prefs, owners, WeeklyReport), WeeklyReport, now, reports)
    ensures forall user: UserId :: Reaches(reports, user) <==>
              && CreatedSince(before, user, now / DAY - 6, now)
              && (if user in prefs then prefs[user][NotifyWeeklyReport] else user in owners)
    ensures forall n :: n in reports ==>
              && n.kind == WeeklyReport && n.at == now && n.payload.Report?
              && n.payload.total == |Since(before, n.user, now / DAY - 6, now)|
  {
    forall user: UserId
      ensures Reaches(reports, user) <==>
                && CreatedSince(before, user, now / DAY - 6, now)
                && (if user in prefs then prefs[user][NotifyWeeklyReport] else user in owners)
    {
      ReachesActive(before, inbox, Targets(prefs, owners, WeeklyReport), WeeklyReport, now, reports, user);
      CountSince(before, user, now / DAY - 6, now);
      hide Reported, CountIn, CreatedSince, Reaches, Since;
    }
    forall n | n in reports
      ensures n.kind == WeeklyReport && n.at == now && n.payload.Report?
      ensures n.payload.total == |Since(before, n.user, now / DAY - 6, now)|
    {
      WeeklyTotal(n, before);
      hide IsRight, Since;
    }
  }

  class Jobs {
    const store: Store
    var badgeOwners: set<UserId>

    constructor (store: Store)
      ensures this.store == store && badgeOwners == {}
    {
      this.store, badgeOwners := store, {};
    }

    /** For a target the gate is open. */
    method Deliver(n: Notification, ghost before: seq<Notification>, ghost done: set<UserId>,
                   ghost reports: seq<Notification>)
      returns (created: bool, ghost more: seq<Notification>)
      requires n.user in Targets(store.prefs, badgeOwners, n.kind) && n.user !in done
      requires Reported(before, store.inbox, done, n.kind, n.at, reports)
      requires CountIn(before, n.user, From(n.kind, n.at), Until(n.at)) > 0
      requires IsRight(n, before)
      modifies store`inbox
      ensures created && |more| == |reports| + 1
      ensures Reported(before, store.inbox, done + {n.user}, n.kind, n.at, more)
    {
      TargetsAreAllowed(store.prefs, badgeOwners, n.kind, n.user);
      OneMore(before, store.inbox, done, reports, n);
      created := store.CreateNotification(n);
      assert |store.inbox| != |old(store.inbox)|;
      more := reports + [n];
    }

    /**
     One digest for each target with a creation today, carrying the count; every
     target is either sent to or skipped, and no count of any window changes.
     */
    method SendDailyDigests(now: int) returns (summary: Summary, ghost reports: seq<Notification>)
      modifies store`inbox
      ensures var targets := Targets(store.prefs, badgeOwners, DailyDigest);
              && Reported(old(store.inbox), store.inbox, targets, DailyDigest, now, reports)
              && summary.sent == |Active(old(store.inbox), targets, DailyDigest, now)|
              && summary.total == |targets| && summary.sent + summary.skipped == summary.total
      ensures store.inbox == old(store.inbox) + reports && summary.sent == |reports|
      ensures forall user: UserId :: Reaches(reports, user) <==>
                && CreatedSince(old(store.inbox), user, now / DAY, now)
                && (if user in store.prefs then store.prefs[user][NotifyDailyDigest] else user in badgeOwners)
      ensures forall n :: n in reports ==>
                && n.kind == DailyDigest && n.at == now && !n.isRead
                && n.payload == Digest(|Since(old(store.inbox), n.user, now / DAY, now)|)
      ensures forall user, from, until ::
                CountIn(store.inbox, user, from, until) == CountIn(old(store.inbox), user, from, until)
    {
      hide Reported, Targets, IsWeeklyReport, CountIn, DowColumn, IsRight, From, Until, Active;
      hide CreatedSince, Since, Reaches;
      ghost var before := store.inbox;
      var targets := TargetUsers(store.prefs, badgeOwners, DailyDigest);
      var counts := CountByUser(store.inbox, targets, From(DailyDigest, now), Until(now));
      var sent, skipped := 0, 0;
      reports := [];
      NoneReported(before, DailyDigest, now);
      var rest := targets;
      ghost var done: set<UserId> := {};
      while rest != {}
        invariant rest <= targets && done == targets - rest
        invariant Reported(before, store.inbox, done, DailyDigest, now, reports)
        invariant sent == |reports| && sent + skipped == |done| && |done| + |rest| == |targets|
        decreases rest
      {
        var user :| user in rest;
        rest := rest - {user};
        var created := if user in counts then counts[user] else 0;
        if created == 0 {
          skipped := skipped + 1;
          OneSkipped(before, store.inbox, done, DailyDigest, now, reports, user);
        } else {
          var n := Notification(user, DailyDigest, Digest(created), now, false);
          DigestIsRight(n, before);
          var ok;
          ok, reports := Deliver(n, before, done, reports);
          if ok { sent := sent + 1; } else { skipped := skipped + 1; }
        }
        done := done + {user};
      }
      assert done == targets;
      ReportsFeedNothing(before, store.inbox, targets, DailyDigest, now, reports);
      DailyGoesTo(before, store.inbox, store.prefs, badgeOwners, now, reports);
      ReportedIs(before, store.inbox, targets, DailyDigest, now, reports);
      summary := Summary(sent, skipped, |targets|);
    }

    /**
     The same over the seven days that end with today, each report naming the
     busiest day and the count of each day.
     */
    method SendWeeklyReports(now: int) returns (summary: Summary, ghost reports: seq<Notification>)
      modifies store`inbox
      ensures var targets := Targets(store.prefs, badgeOwners, WeeklyReport);
              && Reported(old(store.inbox), store.inbox, targets, WeeklyReport, now, reports)
              && summary.sent == |Active(old(store.inbox), targets, WeeklyReport, now)|
              && summary.total == |targets| && summary.sent + summary.skipped == summary.total
      ensures store.inbox == old(store.inbox) + reports && summary.sent == |reports|
      ensures forall user: UserId :: Reaches(reports, user) <==>
                && CreatedSince(old(store.inbox), user, now / DAY - 6, now)
                && (if user in store.prefs then store.prefs[user][NotifyWeeklyReport] else user in badgeOwners)
      ensures forall n :: n in reports ==>
                && n.kind == WeeklyReport && n.at == now && !n.isRead
                && n.payload.Report? && n.payload.total == |Since(old(store.inbox), n.user, now / DAY - 6, now)|
      ensures forall user, from, until ::
                CountIn(store.inbox, user, from, until) == CountIn(old(store.inbox), user, from, until)
    {
      hide Reported, Targets, IsWeeklyReport, CountIn, DowColumn, IsRight, From, Until, Active;
      hide CreatedSince, Since, Reaches;
      ghost var before := store.inbox;
      var targets := TargetUsers(store.prefs, badgeOwners, WeeklyReport);
      var counts := CountByUser(store.inbox, targets, From(WeeklyReport, now), Until(now));
      var sent, skipped := 0, 0;
      reports := [];
      NoneReported(before, WeeklyReport, now);
      var rest := targets;
      ghost var done: set<UserId> := {};
      while rest != {}
        invariant rest <= targets && done == targets - rest
        invariant Reported(before, store.inbox, done, WeeklyReport, now, reports)
        invariant sent == |reports| && sent + skipped == |done| && |done| + |rest| == |targets|
        decreases rest
      {
        var user :| user in rest;
        rest := rest - {user};
        var created := if user in counts then counts[user] else 0;
        if created == 0 {
          skipped := skipped + 1;
          OneSkipped(before, store.inbox, done, WeeklyReport, now, reports, user);
        } else {
          ReportsFeedNothing(before, store.inbox, done, WeeklyReport, now, reports);
          var p := WeeklyPayload(before, store.inbox, user, now, created);
          var ok;
          ok, reports := Deliver(Notification(user, WeeklyReport, p, now, false), before, done, reports);
          if ok { sent := sent + 1; } else { skipped := skipped + 1; }
        }
        done := done + {user};
      }
      assert done == targets;
      ReportsFeedNothing(before, store.inbox, targets, WeeklyReport, now, reports);
      WeeklyGoesTo(before, store.inbox, store.prefs, badgeOwners, now, reports);
      ReportedIs(before, store.inbox, targets, WeeklyReport, now, reports);
      summary := Summary(sent, skipped, |targets|);
    }
  }
}
