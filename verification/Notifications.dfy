/** In-app notifications, and the toggles that gate them. */
module Notifications {
  import opened Prelude

  type UserId = nat

  datatype Kind = BadgeCreation | DailyDigest | WeeklyReport

  datatype Toggle =
    | EmailTemplatePublished | EmailNewSignin
    | NotifyBadgeCreation | NotifyDailyDigest | NotifyWeeklyReport

  /** A preferences row sets every toggle. */
  predicate Complete(p: map<Toggle, bool>) {
    && EmailTemplatePublished in p && EmailNewSignin in p
    && NotifyBadgeCreation in p && NotifyDailyDigest in p && NotifyWeeklyReport in p
  }

  type Prefs = p: map<Toggle, bool> | Complete(p) witness DEFAULTS

  const DEFAULTS: map<Toggle, bool> :=
    map[EmailTemplatePublished := true, EmailNewSignin := true,
        NotifyBadgeCreation := true, NotifyDailyDigest := true, NotifyWeeklyReport := true]

  type PrefTable = map<UserId, Prefs>

  datatype Payload =
    | AboutBadge(badge: nat)
    | Digest(created: nat)
    | Report(total: nat, topDay: nat, perDay: seq<(nat, nat)>)

  datatype Notification = Notification(user: UserId, kind: Kind, payload: Payload, at: int, isRead: bool)

  function ToggleOf(kind: Kind): Toggle {
    match kind
    case BadgeCreation => NotifyBadgeCreation
    case DailyDigest => NotifyDailyDigest
    case WeeklyReport => NotifyWeeklyReport
  }

  /** The gate: without a preferences row everything is let through. */
  predicate Allows(prefs: PrefTable, user: UserId, kind: Kind) {
    user !in prefs || prefs[user][ToggleOf(kind)]
  }

  function Create(inbox: seq<Notification>, prefs: PrefTable, n: Notification): seq<Notification> {
    if Allows(prefs, n.user, n.kind) then inbox + [n] else inbox
  }

  // ----- Preferences -----

  /** INSERT ... ON CONFLICT DO UPDATE: an insert fills in defaults, an update touches only what it names. */
  function Upsert(prefs: PrefTable, user: UserId, updates: map<Toggle, bool>): PrefTable {
    if user in prefs then
      prefs[user := prefs[user] + updates]
    else
      prefs[user := (map t | t in DEFAULTS && t !in updates :: DEFAULTS[t]) + updates]
  }

  /** The preferences a user sees, with or without a row. */
  function Effective(prefs: PrefTable, user: UserId): Prefs {
    if user in prefs then prefs[user] else DEFAULTS
  }

  /**
   An upsert overlays its updates on the preferences in effect, whether or not the
   user had a row, and concerns no one else.
   */
  lemma UpsertOverlays(prefs: PrefTable, user: UserId, updates: map<Toggle, bool>)
    ensures Effective(Upsert(prefs, user, updates), user) == Effective(prefs, user) + updates
    ensures forall other :: other != user ==> Effective(Upsert(prefs, user, updates), other) == Effective(prefs, other)
  {
    if user !in prefs {
      var row := (map t | t in DEFAULTS && t !in updates :: DEFAULTS[t]) + updates;
      assert forall t :: t in row ==> row[t] == (DEFAULTS + updates)[t];
      assert row == DEFAULTS + updates;
    }
  }

  /** The gate asks exactly the preferences in effect. */
  lemma AllowsIsEffective(prefs: PrefTable, user: UserId, kind: Kind)
    ensures Allows(prefs, user, kind) == Effective(prefs, user)[ToggleOf(kind)]
  {}

  /** Each kind is gated by its own toggle, and by nothing where the user has no row. */
  lemma EachKindHasItsToggle(prefs: PrefTable, user: UserId)
    ensures Allows(prefs, user, BadgeCreation) <==> (user in prefs ==> prefs[user][NotifyBadgeCreation])
    ensures Allows(prefs, user, DailyDigest) <==> (user in prefs ==> prefs[user][NotifyDailyDigest])
    ensures Allows(prefs, user, WeeklyReport) <==> (user in prefs ==> prefs[user][NotifyWeeklyReport])
  {}

  /** Without a row every toggle is on; with one the row decides. */
  lemma EffectiveToggles(prefs: PrefTable, user: UserId, t: Toggle)
    ensures t in Effective(prefs, user)
    ensures Effective(prefs, user)[t] <==> (user in prefs ==> prefs[user][t])
  {}

  // ----- Reading -----

  predicate IsUnread(n: Notification, user: UserId) {
    n.user == user && !n.isRead
  }

  function UnreadCount(inbox: seq<Notification>, user: UserId): nat {
    if inbox == [] then 0 else
      UnreadCount(inbox[..|inbox| - 1], user) + if IsUnread(inbox[|inbox| - 1], user) then 1 else 0
  }

  /** The unread count is the number of the user's unread notifications. */
  lemma {:induction false} UnreadCountIsSize(inbox: seq<Notification>, user: UserId)
    ensures UnreadCount(inbox, user) == |set i | 0 <= i < |inbox| && inbox[i].user == user && !inbox[i].isRead|
  {
    var unread := set i | 0 <= i < |inbox| && inbox[i].user == user && !inbox[i].isRead;
    if inbox == [] {
      assert unread == {};
    } else {
      var k := |inbox| - 1;
      var rest := inbox[..k];
      UnreadCountIsSize(rest, user);
      var before := set i | 0 <= i < |rest| && rest[i].user == user && !rest[i].isRead;
      assert unread == before + if inbox[k].user == user && !inbox[k].isRead then {k} else {};
    }
  }

  function AllRead(inbox: seq<Notification>, user: UserId): (r: seq<Notification>)
    ensures |r| == |inbox|
    ensures forall i :: 0 <= i < |inbox| ==>
              r[i] == if inbox[i].user == user then inbox[i].(isRead := true) else inbox[i]
  {
    seq(|inbox|, i requires 0 <= i < |inbox| =>
      if inbox[i].user == user then inbox[i].(isRead := true) else inbox[i])
  }

  lemma {:induction false} AllReadCounts(inbox: seq<Notification>, user: UserId, other: UserId)
    ensures UnreadCount(AllRead(inbox, user), other) == if other == user then 0 else UnreadCount(inbox, other)
  {
    if inbox != [] {
      var n := |inbox| - 1;
      assert AllRead(inbox, user)[..n] == AllRead(inbox[..n], user);
      AllReadCounts(inbox[..n], user, other);
    }
  }

  /** The inbox without the notifications of a user. */
  function Without(inbox: seq<Notification>, user: UserId): (r: seq<Notification>)
    ensures forall i :: 0 <= i < |r| ==> r[i] in inbox && r[i].user != user
  {
    if inbox == [] then [] else
      Without(inbox[..|inbox| - 1], user)
      + if inbox[|inbox| - 1].user == user then [] else [inbox[|inbox| - 1]]
  }

  class Store {
    var prefs: PrefTable
    var inbox: seq<Notification>

    constructor ()
      ensures prefs == map[] && inbox == []
    {
      prefs, inbox := map[], [];
    }

    method CreateNotification(n: Notification) returns (created: bool)
      modifies `inbox
      ensures inbox == Create(old(inbox), prefs, n)
      ensures inbox == if created then old(inbox) + [n] else old(inbox)
      ensures n.kind == BadgeCreation ==> (created <==> (n.user in prefs ==> prefs[n.user][NotifyBadgeCreation]))
      ensures n.kind == DailyDigest ==> (created <==> (n.user in prefs ==> prefs[n.user][NotifyDailyDigest]))
      ensures n.kind == WeeklyReport ==> (created <==> (n.user in prefs ==> prefs[n.user][NotifyWeeklyReport]))
    {
      if n.user in prefs && !prefs[n.user][ToggleOf(n.kind)] {
        return false;
      }
      inbox := inbox + [n];
      return true;
    }

    method UpdatePreferences(user: UserId, updates: map<Toggle, bool>) returns (r: Prefs)
      modifies `prefs
      ensures prefs == Upsert(old(prefs), user, updates)
      ensures r == Effective(old(prefs), user) + updates
    {
      UpsertOverlays(prefs, user, updates);
      if user in prefs {
        prefs := prefs[user := prefs[user] + updates];
      } else {
        prefs := prefs[user := (map t | t in DEFAULTS && t !in updates :: DEFAULTS[t]) + updates];
      }
      r := prefs[user];
    }

    method MarkRead(user: UserId, id: nat) returns (found: bool)
      modifies `inbox
      ensures found <==> id < |old(inbox)| && old(inbox)[id].user == user
      ensures |inbox| == |old(inbox)|
      ensures forall i :: 0 <= i < |inbox| ==>
                inbox[i] == if found && i == id then old(inbox)[i].(isRead := true) else old(inbox)[i]
    {
      found := id < |inbox| && inbox[id].user == user;
      if found {
        inbox := inbox[id := inbox[id].(isRead := true)];
      }
    }

    /** UPDATE of every unread notification of the user; the result is the row count. */
    method MarkAllRead(user: UserId) returns (count: nat)
      modifies `inbox
      ensures inbox == AllRead(old(inbox), user)
      ensures count == UnreadCount(old(inbox), user)
      ensures UnreadCount(inbox, user) == 0
    {
      ghost var before := inbox;
      count := 0;
      for i := 0 to |inbox|
        invariant |inbox| == |before|
        invariant forall k :: 0 <= k < i ==> inbox[k] == AllRead(before, user)[k]
        invariant forall k :: i <= k < |before| ==> inbox[k] == before[k]
        invariant count == UnreadCount(before[..i], user)
      {
        assert before[..i + 1][..i] == before[..i];
        if IsUnread(inbox[i], user) {
          inbox := inbox[i := inbox[i].(isRead := true)];
          count := count + 1;
        }
      }
      assert before[..|before|] == before;
      assert inbox == AllRead(before, user);
      AllReadCounts(before, user, user);
    }
  }
}
