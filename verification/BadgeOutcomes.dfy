/**
 When each badge call goes through and what it leaves, said of the badge's own fields,
 the asset store and the inbox.
 */
module BadgeOutcomes {
  import opened Prelude
  import opened Notifications
  import opened Badges
  import opened BadgeInvariants

  /** The badge is there, not deleted, and the organiser's own. */
  predicate Owns(s: State, organiser: UserId, b: BadgeId) {
    b in s.badges && s.badges[b].deletedAt.None? && s.badges[b].organiser == organiser
  }

  predicate ByOrganiser(c: Call) {
    c.Publish? || c.Unpublish? || c.UploadLogo? || c.DeleteBadge? || c.Duplicate? || c.Edit?
  }

  /** A badge that is missing, deleted or someone else's is refused, naming which, and nothing changes. */
  lemma RefusedExactly(s: State, c: Call)
    requires ByOrganiser(c)
    ensures ReplyTo(s, c) == NotFound <==> !(c.badge in s.badges && s.badges[c.badge].deletedAt.None?)
    ensures ReplyTo(s, c) == NotOwner <==>
              c.badge in s.badges && s.badges[c.badge].deletedAt.None? && s.badges[c.badge].organiser != c.organiser
    ensures !Owns(s, c.organiser, c.badge) ==> Next(s, c) == s
  {
    hide Discard, TargetAccess, Edited, SlugTaken, CountedOn;
  }

  // ----- Logos -----

  lemma LogosStored(s: State, b: BadgeId)
    requires Inv(s) && b in s.badges && s.badges[b].deletedAt.None? && s.badges[b].logo.Some?
    ensures s.badges[b].logo.value in s.assets && s.badges[b].logo.value in s.everAssets
  {
    assert Shows(s.badges, b);
    hide BadgesSound, SlugsUnique, TemplatesSound, NoticesSound;
  }

  lemma StoredWereDrawn(s: State)
    requires Inv(s)
    ensures s.assets <= s.everAssets
  {
    hide BadgesSound, SlugsUnique, TemplatesSound, NoticesSound;
    LogosAreKnown(s);
  }

  /**
   An upload goes through exactly for the badge's organiser when upload and commit
   succeed. Then the new asset is the logo and is stored, the old one is gone from the
   store exactly if its deletion succeeded, and nothing else about any badge changed. In
   every other case no badge changed, and of a failed commit the new asset is gone exactly
   if its deletion succeeded.
   */
  lemma UploadReplacesLogo(s: State, c: Call)
    requires Inv(s) && Enabled(s, c) && c.UploadLogo?
    ensures ReplyTo(s, c) == Done <==> Owns(s, c.organiser, c.badge) && c.uploads && c.commits
    ensures ReplyTo(s, c) == Done ==>
              var old_ := s.badges[c.badge].logo;
              && Next(s, c).badges == s.badges[c.badge := s.badges[c.badge].(logo := Some(c.asset))]
              && c.asset in Next(s, c).assets
              && (old_.Some? ==> old_.value != c.asset && (old_.value !in Next(s, c).assets <==> c.deletes))
              && forall a :: a != c.asset && old_ != Some(a) ==> (a in Next(s, c).assets <==> a in s.assets)
    ensures ReplyTo(s, c) != Done ==>
              && Next(s, c).badges == s.badges
              && (forall a :: a != c.asset ==> (a in Next(s, c).assets <==> a in s.assets))
              && (c.asset in Next(s, c).assets <==>
                    Owns(s, c.organiser, c.badge) && c.uploads && !c.commits && !c.deletes)
  {
    StoredWereDrawn(s);
    if Owns(s, c.organiser, c.badge) && s.badges[c.badge].logo.Some? { LogosStored(s, c.badge); }
    hide Inv;
  }

  /** Deleting takes exactly the badge's own logo from the store, exactly if that request succeeded. */
  lemma DeleteOutcome(s: State, c: Call)
    requires Inv(s) && c.DeleteBadge?
    ensures ReplyTo(s, c) == Done <==> Owns(s, c.organiser, c.badge)
    ensures ReplyTo(s, c) == Done ==>
              var badge := s.badges[c.badge];
              && Next(s, c).badges ==
                 s.badges[c.badge := badge.(deletedAt := Some(c.at), published := false, publishedAt := None)]
              && forall a :: a in Next(s, c).assets <==> a in s.assets && !(badge.logo == Some(a) && c.deletes)
  {
    hide Inv;
  }

  // ----- Making -----

  /** A new badge is an unpublished draft with the template's title; nothing else about badges changes. */
  lemma CreateOutcome(s: State, c: Call)
    requires c.CreateBadge?
    ensures ReplyTo(s, c) == (if c.template !in s.templates then TemplateNotFound
                              else if !s.templates[c.template].active then TemplateNotActive
                              else Made(c.newBadge))
    ensures Next(s, c).badges ==
            if ReplyTo(s, c).Made? then
              s.badges[c.newBadge := Badge(c.organiser, c.template, s.templates[c.template].title, None, 0, None,
                                           false, None, None, 0, 0, None, [])]
            else s.badges
  {}

  /** A copy has title, template, access and hashtags of the original, and no logo, slug, publication or counts. */
  lemma DuplicateOutcome(s: State, c: Call)
    requires c.Duplicate?
    ensures ReplyTo(s, c) == Made(c.newBadge) <==> Owns(s, c.organiser, c.badge)
    ensures Owns(s, c.organiser, c.badge) ==>
              var original := s.badges[c.badge];
              Next(s, c).badges ==
              s.badges[c.newBadge := Badge(c.organiser, original.template, original.title + " (Copy)", None,
                                           original.accessType, original.accessCode, false, None, None, 0, 0, None,
                                           original.hashtags)]
  {}

  /** A template keeps title and status; only makes from it count. */
  lemma TemplatesKeep(s: State, c: Call, t: TemplateId)
    requires Enabled(s, c) && t in s.templates
    ensures t in Next(s, c).templates
    ensures Next(s, c).templates[t].title == s.templates[t].title
    ensures Next(s, c).templates[t].active == s.templates[t].active
  {
    hide TargetAccess, SlugTaken, FindPublic, Upsert, AllRead, Create, LogosOf, Without, BadgesWithout;
  }

  // ----- Publishing and editing -----

  /** No other badge has the slug. */
  predicate FreeSlug(s: State, slug: string, b: BadgeId) {
    forall c :: c in s.badges && c != b ==> s.badges[c].slug != Some(slug)
  }

  /** Publishing keeps a slug the badge has, and gives it the new one if it has none. */
  lemma PublishOutcome(s: State, c: Call)
    requires Inv(s) && c.Publish?
    ensures Owns(s, c.organiser, c.badge) ==>
              var badge := s.badges[c.badge];
              var slug := if badge.slug.Some? then badge.slug.value else c.newSlug;
              && ReplyTo(s, c) == (if badge.published then AlreadyPublished
                                   else if FreeSlug(s, slug, c.badge) then Done else CommitFailed)
              && Next(s, c) ==
                 if ReplyTo(s, c) == Done then
                   s.(badges := s.badges[c.badge := badge.(published := true, publishedAt := Some(c.at),
                                                           slug := Some(slug))])
                 else s
  {
    if Owns(s, c.organiser, c.badge) {
      BadgesKnown(s, c.badge);
      var badge := s.badges[c.badge];
      var slug := if badge.slug.Some? then badge.slug.value else c.newSlug;
      assert SlugTaken(s.badges, slug, c.badge) <==> !FreeSlug(s, slug, c.badge);
      hide Inv, SlugTaken, FreeSlug;
    }
  }

  lemma UnpublishOutcome(s: State, c: Call)
    requires c.Unpublish? && Owns(s, c.organiser, c.badge)
    ensures ReplyTo(s, c) == Done
    ensures Next(s, c) ==
            s.(badges := s.badges[c.badge := s.badges[c.badge].(published := false, publishedAt := None)])
  {}

  /** The access type and code an edit asks for, where it says nothing those the badge has. */
  function AskedType(badge: Badge, u: Updates): Option<int> {
    match u.accessType
    case Keep => Some(badge.accessType)
    case Set(t) => t
  }

  function AskedCode(badge: Badge, u: Updates): Option<string> {
    match u.accessCode
    case Keep => badge.accessCode
    case Set(code) => code
  }

  /** The access asked for is open, or private with a code of 4 to 10 characters. */
  predicate Acceptable(badge: Badge, u: Updates) {
    || AskedType(badge, u) == Some(0)
    || (AskedType(badge, u) == Some(1) && AskedCode(badge, u).Some? && 4 <= |AskedCode(badge, u).value| <= 10)
  }

  /**
   An edit goes through exactly if access and title are acceptable, and sets what it
   names; an open badge keeps no code.
   */
  lemma EditOutcome(s: State, c: Call)
    requires Inv(s) && c.Edit? && Owns(s, c.organiser, c.badge)
    ensures var (badge, u) := (s.badges[c.badge], c.updates);
            && ReplyTo(s, c) == (if !Acceptable(badge, u) then InvalidAccess
                                 else if u.title == Set(None) then CommitFailed else Done)
            && Next(s, c) ==
               if ReplyTo(s, c) == Done then
                 s.(badges := s.badges[c.badge := badge.(
                      title := if u.title.Keep? then badge.title else u.title.value.value,
                      hashtags := if u.hashtags.Keep? then badge.hashtags else u.hashtags.value,
                      accessType := AskedType(badge, u).value,
                      accessCode := if AskedType(badge, u) == Some(1) then AskedCode(badge, u) else None)])
               else s
  {
    BadgesKnown(s, c.badge);
    hide Inv;
  }

  // ----- Counting -----

  /** The badge the public finds under the slug. */
  predicate Public(s: State, slug: string, b: BadgeId) {
    b in s.badges && s.badges[b].slug == Some(slug) && s.badges[b].published && s.badges[b].deletedAt.None?
  }

  lemma PublicIsFound(s: State, slug: string, b: BadgeId)
    requires Inv(s)
    ensures FindPublic(s.badges, slug) == Some(b) <==> Public(s, slug, b)
  {
    SlugsAreUnique(s);
    hide Inv;
  }

  lemma NoneIsFound(s: State, slug: string)
    ensures FindPublic(s.badges, slug).None? <==> forall b :: !Public(s, slug, b)
  {
    var found := FindPublic(s.badges, slug);
    if found.Some? {
      assert Public(s, slug, found.value);
    } else {
      assert forall b :: b in s.badges ==> !(HasSlug(s.badges[b], slug) && IsPublic(s.badges[b]));
    }
  }

  /** The organiser has no preferences row, or has creation notices on. */
  predicate WantsCreations(s: State, b: BadgeId)
    requires b in s.badges
  {
    s.badges[b].organiser !in s.prefs || s.prefs[s.badges[b].organiser][NotifyBadgeCreation]
  }

  /**
   A creation counts one on the public badge under the slug and, if its organiser wants
   to know, adds one unread notice for them; without such a badge nothing changes.
   */
  lemma CreationOutcome(s: State, c: Call, b: BadgeId)
    requires Inv(s) && c.RecordCreation?
    ensures ReplyTo(s, c) == NotFound <==> forall d :: !Public(s, c.slug, d)
    ensures ReplyTo(s, c) == NotFound ==> Next(s, c) == s
    ensures Public(s, c.slug, b) ==>
              var notice := Notification(s.badges[b].organiser, BadgeCreation, AboutBadge(b), c.at, false);
              && ReplyTo(s, c) == Counted(b, WantsCreations(s, b))
              && Next(s, c) ==
                 s.(badges := s.badges[b := s.badges[b].(creations := s.badges[b].creations + 1)],
                    inbox := if WantsCreations(s, b) then s.inbox + [notice] else s.inbox)
  {
    PublicIsFound(s, c.slug, b);
    NoneIsFound(s, c.slug);
    hide Inv, FindPublic;
  }

  lemma ShareOutcome(s: State, c: Call, b: BadgeId)
    requires Inv(s) && c.RecordShare?
    ensures ReplyTo(s, c) == NotFound <==> forall d :: !Public(s, c.slug, d)
    ensures ReplyTo(s, c) == NotFound ==> Next(s, c) == s
    ensures Public(s, c.slug, b) ==>
              && ReplyTo(s, c) == Done
              && Next(s, c) == s.(badges := s.badges[b := s.badges[b].(shares := s.badges[b].shares + 1)])
  {
    PublicIsFound(s, c.slug, b);
    NoneIsFound(s, c.slug);
    hide Inv, FindPublic;
  }

  /** What the public page answers, case by case; `normal` strips and lower-cases a code. */
  lemma PageAnswersExactly(s: State, slug: string, code: Option<string>, normal: string -> string, b: BadgeId)
    requires Inv(s)
    ensures ParticipantPage(s, slug, code, normal) == PageNotFound <==> forall d :: !Public(s, slug, d)
    ensures Public(s, slug, b) ==>
              var badge := s.badges[b];
              ParticipantPage(s, slug, code, normal) ==
              if badge.accessType != 1 then Shown(b)
              else if code.None? then CodeRequired
              else if badge.accessCode.Some? && normal(badge.accessCode.value) == normal(code.value) then Shown(b)
              else WrongCode
  {
    PublicIsFound(s, slug, b);
    NoneIsFound(s, slug);
    if Public(s, slug, b) { BadgesKnown(s, b); }
    hide Inv, FindPublic;
  }

  // ----- Account deletion -----

  /** The asset is the logo of a badge of the user. */
  predicate IsLogoOf(s: State, user: UserId, a: string) {
    exists b :: b in s.badges && s.badges[b].organiser == user && s.badges[b].logo == Some(a)
  }

  /**
   Deleting an account takes exactly the user's badges, preferences and notifications,
   and from the store exactly those of their logos whose deletion succeeded.
   */
  lemma DeleteAccountOutcome(s: State, c: Call)
    requires c.DeleteAccount?
    ensures var t := Next(s, c);
            && (forall b :: b in t.badges <==> b in s.badges && s.badges[b].organiser != c.user)
            && (forall b :: b in t.badges ==> t.badges[b] == s.badges[b])
            && (forall u :: u in t.prefs <==> u in s.prefs && u != c.user)
            && (forall u :: u in t.prefs ==> t.prefs[u] == s.prefs[u])
            && (forall n :: multiset(t.inbox)[n] == if n.user == c.user then 0 else multiset(s.inbox)[n])
            && (forall a :: a in t.assets <==> a in s.assets && !(a in c.granted && IsLogoOf(s, c.user, a)))
  {
    hide Without, IsLogoOf, LogosOf;
    DeletionUnfolds(s, c);
    hide Next;
    WithoutKeepsOthers(s.inbox, c.user);
    LogosAreTheirs(s, c.user);
    StoreWithout(s.assets, LogosOf(s.badges, c.user), c.granted);
  }

  lemma DeletionUnfolds(s: State, c: Call)
    requires c.DeleteAccount?
    ensures var t := Next(s, c);
            && t.badges == BadgesWithout(s.badges, c.user) && t.prefs == s.prefs - {c.user}
            && t.inbox == Without(s.inbox, c.user)
            && t.assets == s.assets - LogosOf(s.badges, c.user) * c.granted
  {
    hide Without, LogosOf, BadgesWithout;
  }

  lemma StoreWithout(assets: set<string>, logos: set<string>, granted: set<string>)
    ensures forall a :: a in assets - logos * granted <==> a in assets && !(a in granted && a in logos)
  {}

  lemma LogosAreTheirs(s: State, user: UserId)
    ensures forall a :: a in LogosOf(s.badges, user) <==> IsLogoOf(s, user, a)
  {}

  lemma {:induction false} WithoutKeepsOthers(inbox: seq<Notification>, user: UserId)
    ensures forall n :: multiset(Without(inbox, user))[n] == if n.user == user then 0 else multiset(inbox)[n]
  {
    if inbox != [] {
      var k := |inbox| - 1;
      WithoutKeepsOthers(inbox[..k], user);
      assert inbox == inbox[..k] + [inbox[k]];
    }
  }

  // ----- The rest of the state -----

  /** Calls that concern badges alone touch neither preferences nor inbox, and the asset store only for a logo. */
  lemma RestStays(s: State, c: Call)
    requires !c.SetPreferences? && !c.ReadAll? && !c.DeleteAccount?
    ensures Next(s, c).prefs == s.prefs
    ensures !c.RecordCreation? ==> Next(s, c).inbox == s.inbox
    ensures !c.UploadLogo? && !c.DeleteBadge? ==> Next(s, c).assets == s.assets
  {
    hide TargetAccess, Edited, SlugTaken, FindPublic, CountedOn;
  }

  /** Preference and reading calls leave badges, templates and assets alone. */
  lemma SettingsStayApart(s: State, c: Call)
    requires c.SetPreferences? || c.ReadAll?
    ensures Next(s, c).badges == s.badges && Next(s, c).templates == s.templates && Next(s, c).assets == s.assets
    ensures c.ReadAll? ==> Next(s, c).prefs == s.prefs && |Next(s, c).inbox| == |s.inbox|
    ensures c.ReadAll? ==>
              forall i :: 0 <= i < |s.inbox| ==>
                Next(s, c).inbox[i] == if s.inbox[i].user == c.user then s.inbox[i].(isRead := true) else s.inbox[i]
    ensures c.SetPreferences? ==> Next(s, c).inbox == s.inbox
    ensures c.SetPreferences? ==>
              forall u :: Effective(Next(s, c).prefs, u)
                          == if u == c.user then Effective(s.prefs, u) + c.toggles else Effective(s.prefs, u)
  {
    if c.SetPreferences? {
      UpsertOverlays(s.prefs, c.user, c.toggles);
    }
    hide Upsert, AllRead, Effective;
  }
}
