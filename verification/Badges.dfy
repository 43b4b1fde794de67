/**
 Badges, the templates they are made from and the asset store their logos live in,
 as one state and one step for each service call.
 */
module Badges {
  import opened Prelude
  import opened Notifications

  type BadgeId = nat
  type TemplateId = nat

  datatype Badge = Badge(
    organiser: UserId,
    template: TemplateId,
    title: string,
    logo: Option<string>,
    accessType: int,
    accessCode: Option<string>,
    published: bool,
    publishedAt: Option<int>,
    slug: Option<string>,
    shares: nat,
    creations: nat,
    deletedAt: Option<int>,
    hashtags: seq<string>)

  datatype Template = Template(title: string, active: bool, made: nat)

  type BadgeTable = map<BadgeId, Badge>

  datatype State = State(
    badges: BadgeTable,
    templates: map<TemplateId, Template>,
    prefs: PrefTable,
    inbox: seq<Notification>,
    assets: set<string>,
    // History: every badge and asset name drawn, the assets whose deletion was asked
    // for and succeeded or failed at some time, and the number of requests that failed.
    everBadges: set<BadgeId>,
    everAssets: set<string>,
    removed: set<string>,
    refused: set<string>,
    failedDeletes: nat)

  const INITIAL := State(map[], map[], map[], [], {}, {}, {}, {}, {}, 0)

  /** A field of an edit request: left out, or set to a value. */
  datatype Change<+T> = Keep | Set(value: T)

  datatype Updates = Updates(
    title: Change<Option<string>>, accessType: Change<Option<int>>, accessCode: Change<Option<string>>,
    hashtags: Change<seq<string>>)

  datatype Call =
    | AddTemplate(newTemplate: TemplateId, title: string, active: bool)
    | CreateBadge(organiser: UserId, template: TemplateId, newBadge: BadgeId)
    | Publish(at: int, organiser: UserId, badge: BadgeId, newSlug: string)
    | Unpublish(organiser: UserId, badge: BadgeId)
    | UploadLogo(organiser: UserId, badge: BadgeId, asset: string, uploads: bool, commits: bool, deletes: bool)
    | DeleteBadge(at: int, organiser: UserId, badge: BadgeId, deletes: bool)
    | Duplicate(organiser: UserId, badge: BadgeId, newBadge: BadgeId)
    | Edit(organiser: UserId, badge: BadgeId, updates: Updates)
    | RecordCreation(at: int, slug: string)
    | RecordShare(slug: string)
    | SetPreferences(user: UserId, toggles: map<Toggle, bool>)
    | ReadAll(user: UserId)
    | DeleteAccount(user: UserId, granted: set<string>)

  datatype Reply =
    | Done
    | Made(badge: BadgeId)
    | Counted(badge: BadgeId, notified: bool)
    | TemplateNotFound | TemplateNotActive
    | NotFound | NotOwner | AlreadyPublished | InvalidAccess | UploadFailed | CommitFailed

  // ----- Queries -----

  predicate Undeleted(badges: BadgeTable, b: BadgeId) {
    b in badges && badges[b].deletedAt.None?
  }

  predicate HasSlug(badge: Badge, slug: string) {
    badge.slug == Some(slug)
  }

  /** What the public sees: published and not deleted. */
  predicate IsPublic(badge: Badge) {
    badge.published && badge.deletedAt.None?
  }

  ghost function FindPublic(badges: BadgeTable, slug: string): (r: Option<BadgeId>)
    ensures r.Some? ==> r.value in badges && HasSlug(badges[r.value], slug) && IsPublic(badges[r.value])
    ensures r.None? ==> forall b :: b in badges ==> !(HasSlug(badges[b], slug) && IsPublic(badges[b]))
  {
    if exists b :: b in badges && HasSlug(badges[b], slug) && IsPublic(badges[b]) then
      var b :| b in badges && HasSlug(badges[b], slug) && IsPublic(badges[b]);
      Some(b)
    else
      None
  }

  predicate SlugTaken(badges: BadgeTable, slug: string, but: BadgeId) {
    exists b :: b in badges && b != but && HasSlug(badges[b], slug)
  }

  /** The access check every organiser call begins with. */
  function Refusal(badges: BadgeTable, organiser: UserId, b: BadgeId): Option<Reply> {
    if !Undeleted(badges, b) then Some(NotFound)
    else if badges[b].organiser != organiser then Some(NotOwner)
    else None
  }

  // ----- Calls -----

  function WithBadge(s: State, b: BadgeId, badge: Badge): State {
    s.(badges := s.badges[b := badge])
  }

  function WithNewBadge(s: State, b: BadgeId, badge: Badge): State {
    s.(badges := s.badges[b := badge], everBadges := s.everBadges + {b},
       templates := CountedOn(s.templates, badge.template))
  }

  function CountedOn(templates: map<TemplateId, Template>, t: TemplateId): map<TemplateId, Template> {
    if t in templates then templates[t := templates[t].(made := templates[t].made + 1)] else templates
  }

  function Draft(organiser: UserId, template: TemplateId, title: string): Badge {
    Badge(organiser, template, title, None, 0, None, false, None, None, 0, 0, None, [])
  }

  function DoCreate(s: State, organiser: UserId, t: TemplateId, newBadge: BadgeId): (State, Reply) {
    if t !in s.templates then (s, TemplateNotFound)
    else if !s.templates[t].active then (s, TemplateNotActive)
    else
      (WithNewBadge(s, newBadge, Draft(organiser, t, s.templates[t].title)), Made(newBadge))
  }

  function DoPublish(s: State, organiser: UserId, b: BadgeId, newSlug: string, now: int): (State, Reply) {
    var refusal := Refusal(s.badges, organiser, b);
    if refusal.Some? then (s, refusal.value)
    else if s.badges[b].published then (s, AlreadyPublished)
    else
      var slug := if s.badges[b].slug.Some? && s.badges[b].slug.value != "" then s.badges[b].slug.value else newSlug;
      if SlugTaken(s.badges, slug, b) then (s, CommitFailed)
      else
        (WithBadge(s, b, s.badges[b].(published := true, publishedAt := Some(now), slug := Some(slug))), Done)
  }

  function DoUnpublish(s: State, organiser: UserId, b: BadgeId): (State, Reply) {
    var refusal := Refusal(s.badges, organiser, b);
    if refusal.Some? then (s, refusal.value)
    else (WithBadge(s, b, s.badges[b].(published := false, publishedAt := None)), Done)
  }

  /** Asks the asset store to delete; a failure leaves the store as it is. */
  function Discard(s: State, asset: string, deletes: bool): State {
    if deletes then s.(assets := s.assets - {asset}, removed := s.removed + {asset})
    else s.(refused := s.refused + {asset}, failedDeletes := s.failedDeletes + 1)
  }

  /** Stored assets that a failed deletion left behind. */
  function Orphans(s: State): set<string> {
    s.refused - s.removed
  }

  function DoUploadLogo(
    s: State, organiser: UserId, b: BadgeId, asset: string, uploads: bool, commits: bool, deletes: bool)
    : (State, Reply)
  {
    var refusal := Refusal(s.badges, organiser, b);
    if refusal.Some? then (s, refusal.value)
    else if !uploads then (s, UploadFailed)
    else
      var stored := s.(assets := s.assets + {asset}, everAssets := s.everAssets + {asset});
      if !commits then (Discard(stored, asset, deletes), CommitFailed)
      else
        var last := s.badges[b].logo;
        var s' := WithBadge(stored, b, s.badges[b].(logo := Some(asset)));
        (if last.Some? then Discard(s', last.value, deletes) else s', Done)
  }

  function DoDelete(s: State, organiser: UserId, b: BadgeId, deletes: bool, now: int): (State, Reply) {
    var refusal := Refusal(s.badges, organiser, b);
    if refusal.Some? then (s, refusal.value)
    else
      var logo := s.badges[b].logo;
      var s' := WithBadge(s, b, s.badges[b].(deletedAt := Some(now), published := false, publishedAt := None));
      (if logo.Some? then Discard(s', logo.value, deletes) else s', Done)
  }

  function DoDuplicate(s: State, organiser: UserId, b: BadgeId, newBadge: BadgeId): (State, Reply) {
    var refusal := Refusal(s.badges, organiser, b);
    if refusal.Some? then (s, refusal.value)
    else
      var original := s.badges[b];
      var copy := Draft(organiser, original.template, original.title + " (Copy)")
                  .(accessType := original.accessType, accessCode := original.accessCode,
                    hashtags := original.hashtags);
      (WithNewBadge(s, newBadge, copy), Made(newBadge))
  }

  /** The access type and code an edit ends up with, or None where it is refused. */
  function TargetAccess(badge: Badge, u: Updates): Option<(int, Option<string>)> {
    if u.accessType.Keep? && u.accessCode.Keep? then
      Some((badge.accessType, badge.accessCode))
    else
      var kind := if u.accessType.Set? then u.accessType.value else Some(badge.accessType);
      var code := if u.accessCode.Set? then u.accessCode.value else badge.accessCode;
      if kind == Some(1) then
        if code.None? || |code.value| < 4 || |code.value| > 10 then None else Some((1, code))
      else if kind == Some(0) then
        Some((0, None))
      else
        None
  }

  /** The badge an accepted edit leaves. */
  function Edited(badge: Badge, u: Updates): Badge
    requires TargetAccess(badge, u).Some? && u.title != Set(None)
  {
    var (accessType, accessCode) := TargetAccess(badge, u).value;
    badge.(title := if u.title.Set? then u.title.value.value else badge.title,
           accessType := accessType,
           accessCode := accessCode,
           hashtags := if u.hashtags.Set? then u.hashtags.value else badge.hashtags)
  }

  function DoEdit(s: State, organiser: UserId, b: BadgeId, u: Updates): (State, Reply) {
    var refusal := Refusal(s.badges, organiser, b);
    if refusal.Some? then (s, refusal.value)
    else if TargetAccess(s.badges[b], u).None? then (s, InvalidAccess)
    else if u.title == Set(None) then (s, CommitFailed)
    else (WithBadge(s, b, Edited(s.badges[b], u)), Done)
  }

  ghost function DoRecordCreation(s: State, slug: string, now: int): (State, Reply) {
    match FindPublic(s.badges, slug)
    case None => (s, NotFound)
    case Some(b) =>
      var badge := s.badges[b];
      var n := Notification(badge.organiser, BadgeCreation, AboutBadge(b), now, false);
      (WithBadge(s, b, badge.(creations := badge.creations + 1)).(inbox := Create(s.inbox, s.prefs, n)),
       Counted(b, Allows(s.prefs, badge.organiser, BadgeCreation)))
  }

  ghost function DoRecordShare(s: State, slug: string): (State, Reply) {
    match FindPublic(s.badges, slug)
    case None => (s, NotFound)
    case Some(b) => (WithBadge(s, b, s.badges[b].(shares := s.badges[b].shares + 1)), Done)
  }

  /** The logos of an organiser's badges, soft-deleted badges included. */
  function LogosOf(badges: BadgeTable, user: UserId): set<string> {
    set b | b in badges && badges[b].organiser == user && badges[b].logo.Some? :: badges[b].logo.value
  }

  function BadgesWithout(badges: BadgeTable, user: UserId): BadgeTable {
    map b | b in badges && badges[b].organiser != user :: badges[b]
  }

  /**
   Deleting an account cascades to badges, preferences and notifications; then the
   deletion of every logo is asked for. `granted` are the requests that succeed.
   */
  function DoDeleteAccount(s: State, user: UserId, granted: set<string>): State {
    var asked := LogosOf(s.badges, user);
    s.(badges := BadgesWithout(s.badges, user),
       prefs := s.prefs - {user},
       inbox := Without(s.inbox, user),
       assets := s.assets - asked * granted,
       removed := s.removed + asked * granted,
       refused := s.refused + (asked - granted),
       failedDeletes := s.failedDeletes + |asked - granted|)
  }

  ghost function Effect(s: State, c: Call): (State, Reply) {
    match c
    case AddTemplate(t, title, active) => (s.(templates := s.templates[t := Template(title, active, 0)]), Done)
    case CreateBadge(organiser, t, newBadge) => DoCreate(s, organiser, t, newBadge)
    case Publish(at, organiser, b, newSlug) => DoPublish(s, organiser, b, newSlug, at)
    case Unpublish(organiser, b) => DoUnpublish(s, organiser, b)
    case UploadLogo(organiser, b, asset, uploads, commits, deletes) =>
      DoUploadLogo(s, organiser, b, asset, uploads, commits, deletes)
    case DeleteBadge(at, organiser, b, deletes) => DoDelete(s, organiser, b, deletes, at)
    case Duplicate(organiser, b, newBadge) => DoDuplicate(s, organiser, b, newBadge)
    case Edit(organiser, b, updates) => DoEdit(s, organiser, b, updates)
    case RecordCreation(at, slug) => DoRecordCreation(s, slug, at)
    case RecordShare(slug) => DoRecordShare(s, slug)
    case SetPreferences(user, toggles) => (s.(prefs := Upsert(s.prefs, user, toggles)), Done)
    case ReadAll(user) => (s.(inbox := AllRead(s.inbox, user)), Done)
    case DeleteAccount(user, granted) => (DoDeleteAccount(s, user, granted), Done)
  }

  ghost function Next(s: State, c: Call): State {
    Effect(s, c).0
  }

  ghost function ReplyTo(s: State, c: Call): Reply {
    Effect(s, c).1
  }

  // ----- Runs -----

  /** Identifiers, asset names and slugs drawn at random are new, and slugs are not empty. */
  predicate Enabled(s: State, c: Call) {
    match c
    case AddTemplate(t, _, _) => t !in s.templates
    case CreateBadge(_, _, newBadge) => newBadge !in s.everBadges
    case Duplicate(_, _, newBadge) => newBadge !in s.everBadges
    case UploadLogo(_, _, asset, _, _, _) => asset !in s.everAssets
    case Publish(_, _, _, newSlug) => newSlug != ""
    case _ => true
  }

  ghost predicate Runnable(s: State, calls: seq<Call>)
    decreases |calls|
  {
    calls == [] || (Enabled(s, calls[0]) && Runnable(Next(s, calls[0]), calls[1..]))
  }

  ghost function Run(s: State, calls: seq<Call>): State
    decreases |calls|
  {
    if calls == [] then s else Run(Next(s, calls[0]), calls[1..])
  }

  ghost predicate Reachable(s: State) {
    exists calls: seq<Call> :: Runnable(INITIAL, calls) && s == Run(INITIAL, calls)
  }

  // ----- The public page -----

  datatype Page = PageNotFound | CodeRequired | NoCodeStored | WrongCode | Shown(badge: BadgeId)

  /** `normal` strips and lower-cases a code before codes are compared. */
  ghost function ParticipantPage(s: State, slug: string, code: Option<string>, normal: string -> string): Page {
    match FindPublic(s.badges, slug)
    case None => PageNotFound
    case Some(b) =>
      var badge := s.badges[b];
      if badge.accessType != 1 then Shown(b)
      else if code.None? then CodeRequired
      else if badge.accessCode.None? || badge.accessCode.value == "" then NoCodeStored
      else if normal(badge.accessCode.value) != normal(code.value) then WrongCode
      else Shown(b)
  }
}
