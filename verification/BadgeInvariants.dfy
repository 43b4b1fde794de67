/** What every badge call keeps. */
module BadgeInvariants {
  import opened Prelude
  import opened Notifications
  import opened Badges

  /** Private exactly when a code of 4 to 10 characters is stored. */
  predicate AccessSound(badge: Badge) {
    || (badge.accessType == 0 && badge.accessCode.None?)
    || (badge.accessType == 1 && badge.accessCode.Some? && 4 <= |badge.accessCode.value| <= 10)
  }

  predicate LifecycleSound(badge: Badge) {
    && (badge.published <==> badge.publishedAt.Some?)
    && (badge.published ==> badge.slug.Some? && badge.deletedAt.None?)
    && (badge.slug.Some? ==> badge.slug.value != "")
    && AccessSound(badge)
  }

  ghost predicate BadgesSound(badges: BadgeTable) {
    forall b :: b in badges ==> LifecycleSound(badges[b])
  }

  ghost predicate SlugsUnique(badges: BadgeTable) {
    forall b, c :: b in badges && c in badges && badges[b].slug.Some? && badges[b].slug == badges[c].slug ==> b == c
  }

  // ----- Logos -----

  predicate Shows(badges: BadgeTable, b: BadgeId) {
    Undeleted(badges, b) && badges[b].logo.Some?
  }

  function LiveLogos(badges: BadgeTable): set<string> {
    set b | b in badges && Shows(badges, b) :: badges[b].logo.value
  }

  /** No two badges share a logo, deleted or not. */
  ghost predicate LogosUnshared(badges: BadgeTable) {
    forall b, c :: b in badges && c in badges && badges[b].logo.Some? && badges[b].logo == badges[c].logo ==> b == c
  }

  ghost predicate LogosKnown(badges: BadgeTable, everAssets: set<string>) {
    forall b :: b in badges && badges[b].logo.Some? ==> badges[b].logo.value in everAssets
  }

  /** The deletion of a soft-deleted badge's logo was asked for. */
  ghost predicate LogosAsked(badges: BadgeTable, asked: set<string>) {
    forall b :: b in badges && badges[b].logo.Some? && badges[b].deletedAt.Some? ==> badges[b].logo.value in asked
  }

  /**
   The store holds the logos of undeleted badges, none of which it was ever asked to
   delete, and what it failed to delete and never deleted since; nothing else.
   */
  ghost predicate StoreSound(
    badges: BadgeTable, assets: set<string>, everAssets: set<string>, removed: set<string>, refused: set<string>,
    failedDeletes: nat)
  {
    && LogosUnshared(badges)
    && LogosKnown(badges, everAssets)
    && LogosAsked(badges, refused + removed)
    && assets == LiveLogos(badges) + (refused - removed)
    && LiveLogos(badges) !! refused + removed
    && refused + removed <= everAssets
    && |refused| <= failedDeletes
  }

  ghost predicate AssetsSound(s: State) {
    StoreSound(s.badges, s.assets, s.everAssets, s.removed, s.refused, s.failedDeletes)
  }

  // ----- Templates and notices -----

  ghost predicate TemplatesSound(badges: BadgeTable, templates: map<TemplateId, Template>) {
    forall b :: b in badges ==> badges[b].template in templates
  }

  predicate IsNotice(n: Notification, b: BadgeId) {
    n.kind == BadgeCreation && n.payload == AboutBadge(b)
  }

  /** A creation notification is about a badge that was made and, while it exists, is its organiser's. */
  predicate NoticeSound(n: Notification, badges: BadgeTable, everBadges: set<BadgeId>) {
    n.kind == BadgeCreation && n.payload.AboutBadge? ==>
      && n.payload.badge in everBadges
      && (n.payload.badge in badges ==> badges[n.payload.badge].organiser == n.user)
  }

  ghost predicate NoticesSound(inbox: seq<Notification>, badges: BadgeTable, everBadges: set<BadgeId>) {
    && badges.Keys <= everBadges
    && forall n :: n in inbox ==> NoticeSound(n, badges, everBadges)
  }

  ghost predicate Inv(s: State) {
    && BadgesSound(s.badges)
    && SlugsUnique(s.badges)
    && AssetsSound(s)
    && TemplatesSound(s.badges, s.templates)
    && NoticesSound(s.inbox, s.badges, s.everBadges)
  }

  // ----- Steps -----

  lemma SettingKeepsBadges(badges: BadgeTable, b: BadgeId, badge: Badge)
    requires BadgesSound(badges) && LifecycleSound(badge)
    ensures BadgesSound(badges[b := badge])
  {}

  lemma SettingKeepsSlugs(badges: BadgeTable, b: BadgeId, badge: Badge)
    requires SlugsUnique(badges)
    requires || badge.slug.None?
             || (b in badges && badge.slug == badges[b].slug)
             || !SlugTaken(badges, badge.slug.value, b)
    ensures SlugsUnique(badges[b := badge])
  {
    if badge.slug.Some? {
      assert forall c :: c in badges && c != b && badges[c].slug == badge.slug ==> HasSlug(badges[c], badge.slug.value);
    }
  }

  /** Rewriting a row or adding one, with organisers and templates as they should be. */
  lemma SettingKeepsNotices(
    inbox: seq<Notification>, badges: BadgeTable, everBadges: set<BadgeId>, b: BadgeId, badge: Badge)
    requires NoticesSound(inbox, badges, everBadges)
    requires if b in badges then badge.organiser == badges[b].organiser else b !in everBadges
    ensures NoticesSound(inbox, badges[b := badge], everBadges + {b})
    ensures b in badges ==> everBadges + {b} == everBadges
  {
    forall n | n in inbox
      ensures NoticeSound(n, badges[b := badge], everBadges + {b})
    {
      assert NoticeSound(n, badges, everBadges);
    }
  }

  predicate SameLogo(badges: BadgeTable, b: BadgeId, badge: Badge) {
    if b in badges then badge.logo == badges[b].logo && badge.deletedAt == badges[b].deletedAt
    else badge.logo.None?
  }

  lemma EditingKeepsLive(badges: BadgeTable, b: BadgeId, badge: Badge)
    requires SameLogo(badges, b, badge)
    ensures LiveLogos(badges[b := badge]) == LiveLogos(badges)
  {
    var badges' := badges[b := badge];
    forall c | c in badges' && Shows(badges', c)
      ensures c in badges && Shows(badges, c) && badges'[c].logo == badges[c].logo
    {}
    forall c | c in badges && Shows(badges, c)
      ensures Shows(badges', c) && badges'[c].logo == badges[c].logo
    {}
  }

  /** A change to a badge that leaves its logo and its deletion mark alone does not concern the assets. */
  lemma EditingKeepsLogos(s: State, b: BadgeId, badge: Badge)
    requires AssetsSound(s) && SameLogo(s.badges, b, badge)
    ensures AssetsSound(WithBadge(s, b, badge))
  {
    EditingKeepsLive(s.badges, b, badge);
    hide LiveLogos;
  }

  /** What `Discard` is for: a stored asset that no badge shows any longer and no request was ever about. */
  ghost predicate AssetsBut(s: State, asset: string) {
    && LogosUnshared(s.badges)
    && LogosKnown(s.badges, s.everAssets)
    && LogosAsked(s.badges, s.refused + s.removed + {asset})
    && s.assets == LiveLogos(s.badges) + (s.refused - s.removed) + {asset}
    && LiveLogos(s.badges) !! s.refused + s.removed
    && asset !in LiveLogos(s.badges) && asset !in s.refused + s.removed && asset in s.everAssets
    && s.refused + s.removed <= s.everAssets
    && |s.refused| <= s.failedDeletes
  }

  lemma Settled(live: set<string>, removed: set<string>, refused: set<string>, asset: string)
    requires live !! refused + removed && asset !in live && asset !in refused + removed
    ensures live + (refused - removed) + {asset} - {asset} == live + (refused - (removed + {asset}))
    ensures live + (refused - removed) + {asset} == live + ((refused + {asset}) - removed)
    ensures refused + (removed + {asset}) == refused + removed + {asset}
    ensures (refused + {asset}) + removed == refused + removed + {asset}
    ensures live !! refused + removed + {asset} && |refused + {asset}| == |refused| + 1
  {}

  lemma DiscardingSettles(s: State, asset: string, deletes: bool)
    requires AssetsBut(s, asset)
    ensures AssetsSound(Discard(s, asset, deletes))
  {
    hide LogosUnshared, LogosKnown, LogosAsked, LiveLogos;
    Settled(LiveLogos(s.badges), s.removed, s.refused, asset);
    assert s.refused + s.removed + {asset} <= s.everAssets;
  }

  /** Replacing or withdrawing a badge's logo frees the old one. */
  lemma WithdrawingLogo(badges: BadgeTable, b: BadgeId, badge: Badge)
    requires LogosUnshared(badges) && Undeleted(badges, b)
    requires || (badge.deletedAt.Some? && badge.logo == badges[b].logo)
             || (badge.logo.Some? && forall c :: c in badges ==> badges[c].logo != badge.logo)
    ensures LogosUnshared(badges[b := badge])
    ensures LiveLogos(badges[b := badge]) ==
            (LiveLogos(badges) - (if badges[b].logo.Some? then {badges[b].logo.value} else {}))
            + (if badge.deletedAt.None? then {badge.logo.value} else {})
  {
    var badges' := badges[b := badge];
    var gone := if badges[b].logo.Some? then {badges[b].logo.value} else {};
    var new_ := if badge.deletedAt.None? then {badge.logo.value} else {};
    forall a | a in LiveLogos(badges) - gone
      ensures a in LiveLogos(badges')
    {
      var c :| c in badges && Shows(badges, c) && badges[c].logo.value == a;
      assert c != b && Shows(badges', c) && badges'[c].logo.value == a;
    }
    forall a | a in LiveLogos(badges')
      ensures a in (LiveLogos(badges) - gone) + new_
    {
      var c :| c in badges' && Shows(badges', c) && badges'[c].logo.value == a;
      if c != b {
        assert Shows(badges, c) && badges[c].logo.value == a;
      }
    }
    forall a | a in new_
      ensures a in LiveLogos(badges')
    {
      assert Shows(badges', b);
    }
  }

  lemma LogosAreKnown(s: State)
    requires AssetsSound(s)
    ensures LiveLogos(s.badges) <= s.everAssets
  {}

  lemma LogoIsLive(s: State, b: BadgeId)
    requires Undeleted(s.badges, b)
    ensures s.badges[b].logo.Some? ==> s.badges[b].logo.value in LiveLogos(s.badges)
  {
    if s.badges[b].logo.Some? { assert Shows(s.badges, b); }
  }

  lemma StillKnown(badges: BadgeTable, everAssets: set<string>, b: BadgeId, badge: Badge, later: set<string>)
    requires LogosKnown(badges, everAssets) && everAssets <= later
    requires badge.logo.Some? ==> badge.logo.value in later
    ensures LogosKnown(badges[b := badge], later)
  {}

  lemma StillAsked(badges: BadgeTable, asked: set<string>, b: BadgeId, badge: Badge, later: set<string>)
    requires LogosAsked(badges, asked) && asked <= later
    requires badge.logo.Some? && badge.deletedAt.Some? ==> badge.logo.value in later
    ensures LogosAsked(badges[b := badge], later)
  {}

  /** An asset taken out of the live ones, others put in, is all that is left over. */
  lemma Freed(live: set<string>, removed: set<string>, refused: set<string>, last: string, added: set<string>)
    requires last in live && live !! refused + removed && added !! live && added !! refused + removed
    ensures var after := (live - {last}) + added;
            && live + (refused - removed) + added == after + (refused - removed) + {last}
            && after !! refused + removed && last !in after && last !in refused + removed
  {}

  /** Withdrawing a badge, then discarding the logo it had. */
  lemma WithdrawingKeepsAssets(s: State, b: BadgeId, badge: Badge, deletes: bool)
    requires AssetsSound(s) && Undeleted(s.badges, b)
    requires badge.deletedAt.Some? && badge.logo == s.badges[b].logo
    ensures var s' := WithBadge(s, b, badge);
            var last := s.badges[b].logo;
            AssetsSound(if last.Some? then Discard(s', last.value, deletes) else s')
  {
    var last := s.badges[b].logo;
    var s' := WithBadge(s, b, badge);
    var asked := s.refused + s.removed;
    LogosAreKnown(s);
    LogoIsLive(s, b);
    StillKnown(s.badges, s.everAssets, b, badge, s.everAssets);
    StillAsked(s.badges, asked, b, badge, asked + (if last.Some? then {last.value} else {}));
    WithdrawingLogo(s.badges, b, badge);
    hide LiveLogos, LogosKnown, LogosUnshared, LogosAsked, Discard;
    if last.Some? {
      Freed(LiveLogos(s.badges), s.removed, s.refused, last.value, {});
      DiscardingSettles(s', last.value, deletes);
      hide AssetsSound;
    }
  }

  lemma NewLogoIsNobodys(badges: BadgeTable, everAssets: set<string>, asset: string)
    requires LogosKnown(badges, everAssets) && asset !in everAssets
    ensures forall c :: c in badges ==> badges[c].logo != Some(asset)
  {}

  /** Giving a badge a logo just uploaded, then discarding the logo it had. */
  lemma ReplacingKeepsAssets(s: State, b: BadgeId, asset: string, deletes: bool)
    requires AssetsSound(s) && Undeleted(s.badges, b) && asset !in s.everAssets
    ensures var stored := s.(assets := s.assets + {asset}, everAssets := s.everAssets + {asset});
            var s' := WithBadge(stored, b, s.badges[b].(logo := Some(asset)));
            var last := s.badges[b].logo;
            AssetsSound(if last.Some? then Discard(s', last.value, deletes) else s')
  {
    var stored := s.(assets := s.assets + {asset}, everAssets := s.everAssets + {asset});
    var badge := s.badges[b].(logo := Some(asset));
    var last := s.badges[b].logo;
    var s' := WithBadge(stored, b, badge);
    var asked := s.refused + s.removed;
    LogosAreKnown(s);
    LogoIsLive(s, b);
    NewLogoIsNobodys(s.badges, s.everAssets, asset);
    StillKnown(s.badges, s.everAssets, b, badge, stored.everAssets);
    StillAsked(s.badges, asked, b, badge, asked + (if last.Some? then {last.value} else {}));
    WithdrawingLogo(s.badges, b, badge);
    hide LiveLogos, LogosKnown, LogosUnshared, LogosAsked, Discard;
    if last.Some? {
      Freed(LiveLogos(s.badges), s.removed, s.refused, last.value, {asset});
      DiscardingSettles(s', last.value, deletes);
      hide AssetsSound;
    }
  }

  lemma UploadKeepsAssets(
    s: State, organiser: UserId, b: BadgeId, asset: string, uploads: bool, commits: bool, deletes: bool)
    requires AssetsSound(s) && asset !in s.everAssets
    ensures AssetsSound(DoUploadLogo(s, organiser, b, asset, uploads, commits, deletes).0)
  {
    if Refusal(s.badges, organiser, b).None? && uploads {
      var stored := s.(assets := s.assets + {asset}, everAssets := s.everAssets + {asset});
      if commits {
        hide AssetsSound, Discard;
        ReplacingKeepsAssets(s, b, asset, deletes);
      } else {
        LogosAreKnown(s);
        assert LogosKnown(stored.badges, stored.everAssets);
        assert LogosAsked(stored.badges, stored.refused + stored.removed + {asset});
        hide LiveLogos, LogosUnshared, LogosKnown, LogosAsked;
        DiscardingSettles(stored, asset, deletes);
      }
    }
  }

  lemma DeleteKeepsAssets(s: State, organiser: UserId, b: BadgeId, deletes: bool, now: int)
    requires AssetsSound(s)
    ensures AssetsSound(DoDelete(s, organiser, b, deletes, now).0)
  {
    hide AssetsSound, Discard;
    if Refusal(s.badges, organiser, b).None? {
      WithdrawingKeepsAssets(
        s, b, s.badges[b].(deletedAt := Some(now), published := false, publishedAt := None), deletes);
    }
  }

  /** No badge that stays had a logo of a badge that goes. */
  lemma DroppingFreesLogos(badges: BadgeTable, user: UserId)
    requires LogosUnshared(badges)
    ensures LiveLogos(BadgesWithout(badges, user)) == LiveLogos(badges) - LogosOf(badges, user)
  {
    var after := BadgesWithout(badges, user);
    forall a | a in LiveLogos(after)
      ensures a in LiveLogos(badges) - LogosOf(badges, user)
    {
      var b :| b in after && Shows(after, b) && after[b].logo.value == a;
      assert Shows(badges, b);
    }
    forall a | a in LiveLogos(badges) - LogosOf(badges, user)
      ensures a in LiveLogos(after)
    {
      var b :| b in badges && Shows(badges, b) && badges[b].logo.value == a;
      assert Shows(after, b);
    }
  }

  lemma LogosAreLiveOrAsked(badges: BadgeTable, user: UserId, asked: set<string>)
    requires LogosAsked(badges, asked)
    ensures LogosOf(badges, user) <= LiveLogos(badges) + asked
  {
    forall a | a in LogosOf(badges, user)
      ensures a in LiveLogos(badges) + asked
    {
      var b :| b in badges && badges[b].organiser == user && badges[b].logo == Some(a);
      if badges[b].deletedAt.None? { assert Shows(badges, b); }
    }
  }

  /** Asking for the deletion of live assets, and of others again, leaves live ones and what was refused for good. */
  lemma Dropped(live: set<string>, removed: set<string>, refused: set<string>, asked: set<string>, granted: set<string>)
    requires live !! refused + removed && asked <= live + refused + removed
    ensures var (removed', refused') := (removed + asked * granted, refused + (asked - granted));
            && (live + (refused - removed)) - asked * granted == (live - asked) + (refused' - removed')
            && (live - asked) !! refused' + removed'
            && refused' + removed' == refused + removed + asked
            && |refused'| <= |refused| + |asked - granted|
  {
    var refused' := refused + (asked - granted);
    assert refused' == refused + ((asked - granted) - refused);
    SubsetSize((asked - granted) - refused, asked - granted);
  }

  lemma SubsetSize(a: set<string>, b: set<string>)
    requires a <= b
    ensures |a| <= |b|
  {
    assert b == a + (b - a);
  }

  lemma DroppingKeepsAssets(s: State, user: UserId, granted: set<string>)
    requires AssetsSound(s)
    ensures AssetsSound(DoDeleteAccount(s, user, granted))
  {
    var asked := LogosOf(s.badges, user);
    var after := DoDeleteAccount(s, user, granted);
    DroppingFreesLogos(s.badges, user);
    LogosAreLiveOrAsked(s.badges, user, s.refused + s.removed);
    assert asked <= s.everAssets;
    assert LogosUnshared(after.badges) && LogosKnown(after.badges, s.everAssets);
    assert LogosAsked(after.badges, s.refused + s.removed + asked);
    hide LiveLogos, LogosOf, LogosUnshared, LogosKnown, LogosAsked, BadgesWithout;
    Dropped(LiveLogos(s.badges), s.removed, s.refused, asked, granted);
  }

  lemma DroppingKeepsNotices(inbox: seq<Notification>, badges: BadgeTable, everBadges: set<BadgeId>, user: UserId)
    requires NoticesSound(inbox, badges, everBadges)
    ensures NoticesSound(Without(inbox, user), BadgesWithout(badges, user), everBadges)
  {
    forall n | n in Without(inbox, user)
      ensures NoticeSound(n, BadgesWithout(badges, user), everBadges)
    {
      assert NoticeSound(n, badges, everBadges);
    }
  }

  lemma DroppingKeepsInv(s: State, user: UserId, granted: set<string>)
    requires Inv(s)
    ensures Inv(DoDeleteAccount(s, user, granted))
  {
    DroppingKeepsAssets(s, user, granted);
    DroppingKeepsNotices(s.inbox, s.badges, s.everBadges, user);
    hide AssetsSound, NoticesSound, LifecycleSound, LogosOf;
  }

  // ----- Everything -----

  /** A call that rewrites one badge, keeping its organiser, template, logo and deletion mark. */
  lemma EditingKeepsInv(s: State, b: BadgeId, badge: Badge)
    requires Inv(s) && b in s.badges && badge.organiser == s.badges[b].organiser
    requires badge.template == s.badges[b].template && badge.logo == s.badges[b].logo
    requires badge.deletedAt == s.badges[b].deletedAt && LifecycleSound(badge)
    requires badge.slug == s.badges[b].slug || (badge.slug.Some? && !SlugTaken(s.badges, badge.slug.value, b))
    ensures Inv(WithBadge(s, b, badge))
  {
    assert TemplatesSound(s.badges[b := badge], s.templates);
    hide BadgesSound, SlugsUnique, AssetsSound, TemplatesSound, LifecycleSound, NoticesSound;
    SettingKeepsBadges(s.badges, b, badge);
    SettingKeepsSlugs(s.badges, b, badge);
    EditingKeepsLogos(s, b, badge);
    SettingKeepsNotices(s.inbox, s.badges, s.everBadges, b, badge);
  }

  lemma AddingKeepsInv(s: State, b: BadgeId, badge: Badge)
    requires Inv(s) && b !in s.everBadges && badge.template in s.templates
    requires LifecycleSound(badge) && badge.logo.None? && badge.slug.None?
    ensures Inv(WithNewBadge(s, b, badge))
  {
    BadgesEverMade(s);
    assert TemplatesSound(s.badges[b := badge], CountedOn(s.templates, badge.template));
    hide BadgesSound, SlugsUnique, StoreSound, TemplatesSound, LifecycleSound, NoticesSound;
    SettingKeepsBadges(s.badges, b, badge);
    SettingKeepsSlugs(s.badges, b, badge);
    EditingKeepsLogos(s, b, badge);
    SettingKeepsNotices(s.inbox, s.badges, s.everBadges, b, badge);
  }

  lemma BadgesEverMade(s: State)
    requires Inv(s)
    ensures s.badges.Keys <= s.everBadges && NoticesSound(s.inbox, s.badges, s.everBadges)
  {
    hide AssetsSound, BadgesSound, SlugsUnique;
  }

  lemma AddingTemplateKeepsInv(s: State, t: TemplateId, title: string, active: bool)
    requires Inv(s) && t !in s.templates
    ensures Inv(s.(templates := s.templates[t := Template(title, active, 0)]))
  {
    hide BadgesSound, SlugsUnique, StoreSound, NoticesSound;
  }

  /** A call that replaces or withdraws a badge's logo. */
  lemma SettingKeepsInv(s: State, after: State, b: BadgeId, badge: Badge)
    requires Inv(s) && b in s.badges && AssetsSound(after) && badge.organiser == s.badges[b].organiser
    requires badge.template == s.badges[b].template && badge.slug == s.badges[b].slug && LifecycleSound(badge)
    requires after.badges == s.badges[b := badge] && after.templates == s.templates
    requires after.inbox == s.inbox && after.everBadges == s.everBadges
    ensures Inv(after)
  {
    assert TemplatesSound(after.badges, s.templates);
    hide BadgesSound, SlugsUnique, AssetsSound, TemplatesSound, LifecycleSound, NoticesSound;
    SettingKeepsBadges(s.badges, b, badge);
    SettingKeepsSlugs(s.badges, b, badge);
    SettingKeepsNotices(s.inbox, s.badges, s.everBadges, b, badge);
  }

  lemma UploadKeepsInv(
    s: State, organiser: UserId, b: BadgeId, asset: string, uploads: bool, commits: bool, deletes: bool)
    requires Inv(s) && asset !in s.everAssets
    ensures Inv(DoUploadLogo(s, organiser, b, asset, uploads, commits, deletes).0)
  {
    hide BadgesSound, SlugsUnique, AssetsSound, TemplatesSound, NoticesSound;
    UploadKeepsAssets(s, organiser, b, asset, uploads, commits, deletes);
    if Refusal(s.badges, organiser, b).None? && uploads && commits {
      BadgesKnown(s, b);
      hide Inv;
      SettingKeepsInv(
        s, DoUploadLogo(s, organiser, b, asset, uploads, commits, deletes).0, b, s.badges[b].(logo := Some(asset)));
    }
  }

  lemma DeleteKeepsInv(s: State, organiser: UserId, b: BadgeId, deletes: bool, now: int)
    requires Inv(s)
    ensures Inv(DoDelete(s, organiser, b, deletes, now).0)
  {
    hide BadgesSound, SlugsUnique, AssetsSound, TemplatesSound, NoticesSound;
    DeleteKeepsAssets(s, organiser, b, deletes, now);
    if Refusal(s.badges, organiser, b).None? {
      BadgesKnown(s, b);
      hide Inv;
      SettingKeepsInv(
        s, DoDelete(s, organiser, b, deletes, now).0, b,
        s.badges[b].(deletedAt := Some(now), published := false, publishedAt := None));
    }
  }

  lemma BadgesKnown(s: State, b: BadgeId)
    requires Inv(s) && b in s.badges
    ensures LifecycleSound(s.badges[b]) && s.badges[b].template in s.templates
  {
    hide AssetsSound;
  }

  /** Nothing but preferences and the inbox changes. */
  lemma InboxKeepsInv(s: State, prefs: PrefTable, inbox: seq<Notification>)
    requires Inv(s) && NoticesSound(inbox, s.badges, s.everBadges)
    ensures Inv(s.(prefs := prefs, inbox := inbox))
  {
    hide StoreSound, TemplatesSound, BadgesSound, SlugsUnique;
  }

  lemma ReadingKeepsNoticesSound(inbox: seq<Notification>, badges: BadgeTable, everBadges: set<BadgeId>, user: UserId)
    requires NoticesSound(inbox, badges, everBadges)
    ensures NoticesSound(AllRead(inbox, user), badges, everBadges)
  {
    var after := AllRead(inbox, user);
    forall i | 0 <= i < |after|
      ensures NoticeSound(after[i], badges, everBadges)
    {
      assert NoticeSound(inbox[i], badges, everBadges);
    }
  }

  lemma PublishingKeepsInv(s: State, c: Call)
    requires Inv(s) && Enabled(s, c) && (c.Publish? || c.Unpublish?)
    ensures Inv(Next(s, c))
  {
    if Refusal(s.badges, c.organiser, c.badge).None? {
      BadgesKnown(s, c.badge);
      var badge := s.badges[c.badge];
      if c.Unpublish? {
        EditingKeepsInv(s, c.badge, badge.(published := false, publishedAt := None));
      } else {
        var slug := if badge.slug.Some? && badge.slug.value != "" then badge.slug.value else c.newSlug;
        if !badge.published && !SlugTaken(s.badges, slug, c.badge) {
          EditingKeepsInv(s, c.badge, badge.(published := true, publishedAt := Some(c.at), slug := Some(slug)));
        }
      }
    }
    hide Inv;
  }

  lemma EditedIsSound(badge: Badge, u: Updates)
    requires LifecycleSound(badge) && TargetAccess(badge, u).Some? && u.title != Set(None)
    ensures LifecycleSound(Edited(badge, u))
  {}

  lemma EditKeepsInv(s: State, organiser: UserId, b: BadgeId, u: Updates)
    requires Inv(s)
    ensures Inv(DoEdit(s, organiser, b, u).0)
  {
    hide Inv;
    if Refusal(s.badges, organiser, b).None? && TargetAccess(s.badges[b], u).Some? && u.title != Set(None) {
      BadgesKnown(s, b);
      EditedIsSound(s.badges[b], u);
      hide LifecycleSound;
      EditingKeepsInv(s, b, Edited(s.badges[b], u));
    }
  }

  lemma ShareKeepsInv(s: State, slug: string)
    requires Inv(s)
    ensures Inv(DoRecordShare(s, slug).0)
  {
    hide Inv;
    var b := FindPublic(s.badges, slug);
    if b.Some? {
      BadgesKnown(s, b.value);
      EditingKeepsInv(s, b.value, s.badges[b.value].(shares := s.badges[b.value].shares + 1));
    }
  }

  lemma CreationKeepsInv(s: State, slug: string, now: int)
    requires Inv(s)
    ensures Inv(DoRecordCreation(s, slug, now).0)
  {
    hide Inv, Allows;
    var b := FindPublic(s.badges, slug);
    if b.Some? {
      BadgesKnown(s, b.value);
      var badge := s.badges[b.value].(creations := s.badges[b.value].creations + 1);
      EditingKeepsInv(s, b.value, badge);
      BadgesEverMade(WithBadge(s, b.value, badge));
      InboxKeepsInv(WithBadge(s, b.value, badge), s.prefs, DoRecordCreation(s, slug, now).0.inbox);
    }
  }

  lemma MakingKeepsInv(s: State, c: Call)
    requires Inv(s) && Enabled(s, c) && (c.CreateBadge? || c.Duplicate?)
    ensures Inv(Next(s, c))
  {
    if c.CreateBadge? {
      if c.template in s.templates && s.templates[c.template].active {
        AddingKeepsInv(s, c.newBadge, Draft(c.organiser, c.template, s.templates[c.template].title));
      }
    } else if Refusal(s.badges, c.organiser, c.badge).None? {
      BadgesKnown(s, c.badge);
      AddingKeepsInv(s, c.newBadge, Next(s, c).badges[c.newBadge]);
    }
    hide Inv;
  }

  /** Every enabled call keeps every invariant. */
  lemma CallKeepsInv(s: State, c: Call)
    requires Inv(s) && Enabled(s, c)
    ensures Inv(Next(s, c))
  {
    BadgesEverMade(s);
    hide Inv, NoticesSound;
    match c
    case AddTemplate(t, title, active) => AddingTemplateKeepsInv(s, t, title, active);
    case CreateBadge(_, _, _) => MakingKeepsInv(s, c);
    case Publish(_, _, _, _) => PublishingKeepsInv(s, c);
    case Unpublish(_, _) => PublishingKeepsInv(s, c);
    case UploadLogo(organiser, b, asset, uploads, commits, deletes) =>
      UploadKeepsInv(s, organiser, b, asset, uploads, commits, deletes);
    case DeleteBadge(at, organiser, b, deletes) => DeleteKeepsInv(s, organiser, b, deletes, at);
    case Duplicate(_, _, _) => MakingKeepsInv(s, c);
    case Edit(organiser, b, updates) => EditKeepsInv(s, organiser, b, updates);
    case RecordCreation(at, slug) => CreationKeepsInv(s, slug, at);
    case RecordShare(slug) => ShareKeepsInv(s, slug);
    case SetPreferences(user, toggles) => InboxKeepsInv(s, Upsert(s.prefs, user, toggles), s.inbox);
    case ReadAll(user) =>
      ReadingKeepsNoticesSound(s.inbox, s.badges, s.everBadges, user);
      InboxKeepsInv(s, s.prefs, AllRead(s.inbox, user));
    case DeleteAccount(user, granted) => DroppingKeepsInv(s, user, granted);
  }

  lemma SlugsAreUnique(s: State)
    requires Inv(s)
    ensures SlugsUnique(s.badges)
  {
    hide BadgesSound, AssetsSound, TemplatesSound;
  }

  /** A badge's own row does not count against its slug. */
  lemma OwnRowDoesNotClash(badges: BadgeTable, b: BadgeId, badge: Badge, slug: string)
    requires b in badges
    ensures SlugTaken(badges[b := badge], slug, b) == SlugTaken(badges, slug, b)
  {
    var badges' := badges[b := badge];
    if SlugTaken(badges, slug, b) {
      var c :| c in badges && c != b && HasSlug(badges[c], slug);
      assert c in badges' && HasSlug(badges'[c], slug);
    }
    if SlugTaken(badges', slug, b) {
      var c :| c in badges' && c != b && HasSlug(badges'[c], slug);
      assert c in badges && HasSlug(badges[c], slug);
    }
  }

  lemma InitialSound()
    ensures Inv(INITIAL)
  {}

  lemma {:induction false} RunKeepsInv(s: State, calls: seq<Call>)
    requires Inv(s) && Runnable(s, calls)
    ensures Inv(Run(s, calls))
    decreases |calls|
  {
    hide Inv;
    if calls != [] {
      CallKeepsInv(s, calls[0]);
      RunKeepsInv(Next(s, calls[0]), calls[1..]);
    }
  }

  lemma ReachableSound(s: State)
    requires Reachable(s)
    ensures Inv(s)
  {
    var calls: seq<Call> :| Runnable(INITIAL, calls) && s == Run(INITIAL, calls);
    InitialSound();
    RunKeepsInv(INITIAL, calls);
  }
}
