/** What runs of badge calls guarantee. */
module BadgeTheorems {
  import opened Prelude
  import opened Notifications
  import opened Badges
  import opened BadgeInvariants

  // ----- Lifecycle -----

  /**
   A badge is published exactly when it has a publication time; then it has a slug
   and is not deleted; no other badge, deleted or not, has its slug; and it is
   private exactly when it stores a code of 4 to 10 characters.
   */
  lemma LifecycleHolds(s: State, b: BadgeId, c: BadgeId)
    requires Reachable(s) && b in s.badges && c in s.badges
    ensures var badge := s.badges[b];
            && (badge.published <==> badge.publishedAt.Some?)
            && (badge.published ==> badge.slug.Some? && badge.deletedAt.None?)
            && (badge.accessType == 1 <==> badge.accessCode.Some?)
            && (badge.accessType == 1 ==> 4 <= |badge.accessCode.value| <= 10)
            && (badge.accessType == 0 || badge.accessType == 1)
    ensures b != c && s.badges[b].slug.Some? ==> s.badges[b].slug != s.badges[c].slug
  {
    ReachableSound(s);
    hide AssetsSound, TemplatesSound, NoticesSound;
    assert LifecycleSound(s.badges[b]);
  }

  /** The call deletes the account of the badge's organiser. */
  predicate Removes(c: Call, badge: Badge) {
    c.DeleteAccount? && c.user == badge.organiser
  }

  /**
   While a badge's row is there, its organiser, its template and a slug once set
   stay, and after soft deletion nothing changes; once gone, it never returns.
   */
  ghost predicate Kept(before: State, after: State, b: BadgeId) {
    && before.everBadges <= after.everBadges
    && (b in before.everBadges && b !in before.badges ==> b !in after.badges)
    && (b in before.badges && b in after.badges ==>
          var (was, is_) := (before.badges[b], after.badges[b]);
          && is_.organiser == was.organiser && is_.template == was.template
          && (was.slug.Some? ==> is_.slug == was.slug)
          && (was.deletedAt.Some? ==> is_ == was))
  }

  /** What one call does to the row. */
  ghost predicate KeptBy(s: State, c: Call, after: State, b: BadgeId) {
    && Kept(s, after, b)
    && (b in s.badges ==> (b !in after.badges <==> Removes(c, s.badges[b])))
    && (b in after.everBadges && b !in s.everBadges ==> b in after.badges)
  }

  lemma PublishKeeps(s: State, c: Call, b: BadgeId)
    requires BadgesSound(s.badges) && s.badges.Keys <= s.everBadges && (c.Publish? || c.Unpublish?)
    ensures KeptBy(s, c, Next(s, c), b)
  {
    assert b in s.badges ==> LifecycleSound(s.badges[b]);
  }

  /** At most the logo and the lifecycle of one undeleted badge changed. */
  ghost predicate LogoEdited(before: BadgeTable, after: BadgeTable, b: BadgeId) {
    || after == before
    || (&& Undeleted(before, b)
        && exists logo, published, publishedAt, deletedAt ::
             after == before[b := before[b].(
               logo := logo, published := published, publishedAt := publishedAt, deletedAt := deletedAt)])
  }

  lemma DiscardKeepsRows(s: State, asset: string, deletes: bool)
    ensures var t := Discard(s, asset, deletes);
            t.badges == s.badges && t.everBadges == s.everBadges && t.inbox == s.inbox
  {}

  lemma SetIsLogoEdit(before: BadgeTable, b: BadgeId, badge: Badge)
    requires Undeleted(before, b)
    requires badge == before[b].(logo := badge.logo, published := badge.published,
                                 publishedAt := badge.publishedAt, deletedAt := badge.deletedAt)
    ensures LogoEdited(before, before[b := badge], b)
  {}

  lemma UploadTouches(
    s: State, organiser: UserId, b: BadgeId, asset: string, uploads: bool, commits: bool, deletes: bool)
    ensures var (t, reply) := DoUploadLogo(s, organiser, b, asset, uploads, commits, deletes);
            && t.everBadges == s.everBadges && t.inbox == s.inbox && !reply.Counted?
            && LogoEdited(s.badges, t.badges, b)
  {
    if Refusal(s.badges, organiser, b).None? {
      var stored := s.(assets := s.assets + {asset}, everAssets := s.everAssets + {asset});
      var badge := s.badges[b].(logo := Some(asset));
      DiscardKeepsRows(stored, asset, deletes);
      SetIsLogoEdit(s.badges, b, badge);
      if s.badges[b].logo.Some? {
        DiscardKeepsRows(WithBadge(stored, b, badge), s.badges[b].logo.value, deletes);
      }
      assert LogoEdited(s.badges, s.badges, b);
    } else {
      assert LogoEdited(s.badges, s.badges, b);
    }
    hide Discard, LogoEdited;
  }

  lemma DeleteTouches(s: State, organiser: UserId, b: BadgeId, deletes: bool, now: int)
    ensures var (t, reply) := DoDelete(s, organiser, b, deletes, now);
            && t.everBadges == s.everBadges && t.inbox == s.inbox && !reply.Counted?
            && LogoEdited(s.badges, t.badges, b)
  {
    if Refusal(s.badges, organiser, b).None? {
      var badge := s.badges[b].(deletedAt := Some(now), published := false, publishedAt := None);
      SetIsLogoEdit(s.badges, b, badge);
      if s.badges[b].logo.Some? {
        DiscardKeepsRows(WithBadge(s, b, badge), s.badges[b].logo.value, deletes);
      }
    } else {
      assert LogoEdited(s.badges, s.badges, b);
    }
    hide Discard, LogoEdited;
  }

  lemma LogoCallsTouch(s: State, c: Call)
    requires c.UploadLogo? || c.DeleteBadge?
    ensures var t := Next(s, c);
            && t.everBadges == s.everBadges && t.inbox == s.inbox && !ReplyTo(s, c).Counted?
            && LogoEdited(s.badges, t.badges, c.badge)
  {
    hide DoUploadLogo, DoDelete, LogoEdited;
    if c.UploadLogo? {
      UploadTouches(s, c.organiser, c.badge, c.asset, c.uploads, c.commits, c.deletes);
    } else {
      DeleteTouches(s, c.organiser, c.badge, c.deletes, c.at);
    }
  }

  lemma LogoAndDeleteKeep(s: State, c: Call, b: BadgeId)
    requires s.badges.Keys <= s.everBadges && (c.UploadLogo? || c.DeleteBadge?)
    ensures KeptBy(s, c, Next(s, c), b)
  {
    LogoCallsTouch(s, c);
    hide Next, ReplyTo;
  }

  lemma MakeAndEditKeep(s: State, c: Call, b: BadgeId)
    requires Enabled(s, c) && s.badges.Keys <= s.everBadges && (c.CreateBadge? || c.Duplicate? || c.Edit?)
    ensures KeptBy(s, c, Next(s, c), b)
  {
    hide CountedOn, TargetAccess;
  }

  lemma OthersKeep(s: State, c: Call, b: BadgeId)
    requires s.badges.Keys <= s.everBadges
    requires || c.AddTemplate? || c.RecordCreation? || c.RecordShare? || c.SetPreferences? || c.ReadAll?
             || c.DeleteAccount?
    ensures KeptBy(s, c, Next(s, c), b)
  {
    hide LogosOf, AllRead, Without, Upsert, Create;
  }

  lemma StepKeeps(s: State, c: Call, b: BadgeId)
    requires BadgesSound(s.badges) && s.badges.Keys <= s.everBadges && Enabled(s, c)
    ensures KeptBy(s, c, Next(s, c), b)
  {
    hide KeptBy, Next, BadgesSound, Enabled;
    match c
    case Publish(_, _, _, _) => PublishKeeps(s, c, b);
    case Unpublish(_, _) => PublishKeeps(s, c, b);
    case UploadLogo(_, _, _, _, _, _) => LogoAndDeleteKeep(s, c, b);
    case DeleteBadge(_, _, _, _) => LogoAndDeleteKeep(s, c, b);
    case CreateBadge(_, _, _) => MakeAndEditKeep(s, c, b);
    case Duplicate(_, _, _) => MakeAndEditKeep(s, c, b);
    case Edit(_, _, _) => MakeAndEditKeep(s, c, b);
    case _ => OthersKeep(s, c, b);
  }

  lemma BadgesAreSound(s: State)
    requires Inv(s)
    ensures BadgesSound(s.badges)
  {
    hide AssetsSound, TemplatesSound, SlugsUnique, NoticesSound;
  }

  /** Some call of the run deletes the account of the badge's organiser. */
  ghost predicate Removed(calls: seq<Call>, badge: Badge) {
    exists i :: 0 <= i < |calls| && Removes(calls[i], badge)
  }

  lemma RemovedSplits(calls: seq<Call>, badge: Badge)
    requires calls != []
    ensures Removed(calls, badge) <==> Removes(calls[0], badge) || Removed(calls[1..], badge)
  {
    if Removed(calls[1..], badge) {
      var i :| 0 <= i < |calls[1..]| && Removes(calls[1..][i], badge);
      assert Removes(calls[i + 1], badge);
    }
    if Removed(calls, badge) && !Removes(calls[0], badge) {
      var i :| 0 <= i < |calls| && Removes(calls[i], badge);
      assert Removes(calls[1..][i - 1], badge);
    }
  }

  lemma {:induction false} RunKeeps(s: State, calls: seq<Call>, b: BadgeId)
    requires Inv(s) && Runnable(s, calls)
    ensures Kept(s, Run(s, calls), b)
    ensures b in s.badges ==> (b !in Run(s, calls).badges <==> Removed(calls, s.badges[b]))
    decreases |calls|
  {
    if calls != [] {
      BadgesAreSound(s);
      BadgesEverMade(s);
      CallKeepsInv(s, calls[0]);
      hide Inv, Next, BadgesSound;
      StepKeeps(s, calls[0], b);
      RunKeeps(Next(s, calls[0]), calls[1..], b);
      if b in s.badges { RemovedSplits(calls, s.badges[b]); }
      hide Removed;
      assert b in Next(s, calls[0]).badges && b in s.badges ==>
          Removed(calls[1..], s.badges[b]) == Removed(calls[1..], Next(s, calls[0]).badges[b]) by {
        if b in Next(s, calls[0]).badges && b in s.badges {
          SameOrganiserSameFate(calls[1..], s.badges[b], Next(s, calls[0]).badges[b]);
        }
      }
    }
  }

  lemma SameOrganiserSameFate(calls: seq<Call>, a: Badge, b: Badge)
    requires a.organiser == b.organiser
    ensures Removed(calls, a) == Removed(calls, b)
  {
    if i :| 0 <= i < |calls| && Removes(calls[i], a) { assert Removes(calls[i], b); }
    if i :| 0 <= i < |calls| && Removes(calls[i], b) { assert Removes(calls[i], a); }
  }

  /**
   From any reachable state on, over any run, for every badge: its row goes if and
   only if its organiser's account is deleted, and never returns; until then its slug
   stays, and a soft-deleted badge never changes.
   */
  lemma BadgesAreKept(s: State, calls: seq<Call>, b: BadgeId)
    requires Reachable(s) && Runnable(s, calls)
    ensures Kept(s, Run(s, calls), b)
    ensures b in s.badges ==> (b !in Run(s, calls).badges <==> Removed(calls, s.badges[b]))
  {
    ReachableSound(s);
    hide Inv;
    RunKeeps(s, calls, b);
  }

  /**
   The public page shows a badge exactly when its slug is that of a public badge
   that is open or whose code is matched, and never meets a private badge without
   a code.
   */
  lemma PageShowsExactly(s: State, slug: string, code: Option<string>, normal: string -> string, b: BadgeId)
    requires Reachable(s)
    ensures ParticipantPage(s, slug, code, normal) != NoCodeStored
    ensures ParticipantPage(s, slug, code, normal) == Shown(b) <==>
              && b in s.badges && HasSlug(s.badges[b], slug) && IsPublic(s.badges[b])
              && (s.badges[b].accessType == 1 ==>
                    code.Some? && s.badges[b].accessCode.Some?
                    && normal(s.badges[b].accessCode.value) == normal(code.value))
  {
    ReachableSound(s);
    hide AssetsSound, TemplatesSound, NoticesSound;
    var found := FindPublic(s.badges, slug);
    if found.Some? { assert LifecycleSound(s.badges[found.value]); }
  }

  // ----- Logos -----

  /**
   Whatever uploads, commits and deletions failed: the logo of an undeleted badge
   is in the asset store and no other badge has it; the store holds those logos and
   the orphans, which a failed deletion left behind and no later one removed; nothing
   else. There are never more orphans than failed deletions.
   */
  lemma LogosAreStored(s: State)
    requires Reachable(s)
    ensures forall b :: b in s.badges && Shows(s.badges, b) ==> s.badges[b].logo.value in s.assets
    ensures forall b, c :: b in s.badges && c in s.badges && s.badges[b].logo.Some? && b != c ==>
              s.badges[b].logo != s.badges[c].logo
    ensures s.assets == LiveLogos(s.badges) + Orphans(s)
    ensures |s.assets| == |LiveLogos(s.badges)| + |Orphans(s)|
    ensures |Orphans(s)| <= s.failedDeletes
  {
    ReachableSound(s);
    hide BadgesSound, SlugsUnique, TemplatesSound, NoticesSound;
    assert |LiveLogos(s.badges) + Orphans(s)| == |LiveLogos(s.badges)| + |Orphans(s)|;
    SubsetSize(Orphans(s), s.refused);
  }

  /** No deletion was asked for twice. */
  ghost predicate AskedOnce(s: State) {
    s.removed !! s.refused && |s.refused| == s.failedDeletes
  }

  lemma DiscardAsksOnce(s: State, asset: string, deletes: bool)
    requires AskedOnce(s) && asset !in s.refused + s.removed
    ensures AskedOnce(Discard(s, asset, deletes))
  {}

  lemma LiveLogoNeverAsked(s: State, b: BadgeId)
    requires AssetsSound(s) && Undeleted(s.badges, b) && s.badges[b].logo.Some?
    ensures s.badges[b].logo.value !in s.refused + s.removed
  {
    LogoIsLive(s, b);
  }

  lemma UploadAsksOnce(
    s: State, organiser: UserId, b: BadgeId, asset: string, uploads: bool, commits: bool, deletes: bool)
    requires AssetsSound(s) && AskedOnce(s) && asset !in s.everAssets
    ensures AskedOnce(DoUploadLogo(s, organiser, b, asset, uploads, commits, deletes).0)
  {
    if Refusal(s.badges, organiser, b).None? && uploads {
      var stored := s.(assets := s.assets + {asset}, everAssets := s.everAssets + {asset});
      if !commits {
        DiscardAsksOnce(stored, asset, deletes);
      } else if s.badges[b].logo.Some? {
        LiveLogoNeverAsked(s, b);
        DiscardAsksOnce(
          WithBadge(stored, b, s.badges[b].(logo := Some(asset))), s.badges[b].logo.value, deletes);
      }
    }
    hide AssetsSound, Discard;
  }

  lemma DeleteAsksOnce(s: State, organiser: UserId, b: BadgeId, deletes: bool, now: int)
    requires AssetsSound(s) && AskedOnce(s)
    ensures AskedOnce(DoDelete(s, organiser, b, deletes, now).0)
  {
    if Refusal(s.badges, organiser, b).None? && s.badges[b].logo.Some? {
      LiveLogoNeverAsked(s, b);
      DiscardAsksOnce(
        WithBadge(s, b, s.badges[b].(deletedAt := Some(now), published := false, publishedAt := None)),
        s.badges[b].logo.value, deletes);
    }
    hide AssetsSound, Discard;
  }

  lemma OthersAskNothing(s: State, c: Call)
    requires !c.UploadLogo? && !c.DeleteBadge? && !c.DeleteAccount?
    ensures var t := Next(s, c);
            t.removed == s.removed && t.refused == s.refused && t.failedDeletes == s.failedDeletes
  {
    hide CountedOn, TargetAccess, Upsert, AllRead, Create, FindPublic, SlugTaken;
  }

  lemma AskedOnceStep(s: State, c: Call)
    requires AssetsSound(s) && Enabled(s, c) && AskedOnce(s) && !c.DeleteAccount?
    ensures AskedOnce(Next(s, c))
  {
    if c.UploadLogo? {
      hide AssetsSound, AskedOnce, DoUploadLogo;
      UploadAsksOnce(s, c.organiser, c.badge, c.asset, c.uploads, c.commits, c.deletes);
    } else if c.DeleteBadge? {
      hide AssetsSound, AskedOnce, DoDelete;
      DeleteAsksOnce(s, c.organiser, c.badge, c.deletes, c.at);
    } else {
      OthersAskNothing(s, c);
      hide AssetsSound, Next;
    }
  }

  lemma LogosAreSound(s: State)
    requires Inv(s)
    ensures AssetsSound(s)
  {
    hide AssetsSound, BadgesSound, SlugsUnique, TemplatesSound, NoticesSound;
  }

  lemma {:induction false} AskedOnceRun(s: State, calls: seq<Call>)
    requires Inv(s) && Runnable(s, calls) && AskedOnce(s)
    requires forall i :: 0 <= i < |calls| ==> !calls[i].DeleteAccount?
    ensures AskedOnce(Run(s, calls))
    decreases |calls|
  {
    if calls != [] {
      var c := calls[0];
      hide Inv, AssetsSound, Next, AskedOnce, Enabled;
      LogosAreSound(s);
      CallKeepsInv(s, c);
      AskedOnceStep(s, c);
      AskedOnceRun(Next(s, c), calls[1..]);
    }
  }

  /** In a run that deletes no account each failed deletion leaves one orphan for good. */
  lemma OneOrphanPerFailure(calls: seq<Call>)
    requires Runnable(INITIAL, calls)
    requires forall i :: 0 <= i < |calls| ==> !calls[i].DeleteAccount?
    ensures var s := Run(INITIAL, calls);
            |Orphans(s)| == s.failedDeletes && |s.assets| == |LiveLogos(s.badges)| + s.failedDeletes
  {
    InitialSound();
    AskedOnceRun(INITIAL, calls);
    LogosAreStored(Run(INITIAL, calls));
    var s := Run(INITIAL, calls);
    assert s.refused - s.removed == s.refused;
  }

  // ----- Template totals -----

  function MadeFrom(badges: BadgeTable, t: TemplateId): set<BadgeId> {
    set b | b in badges && badges[b].template == t
  }

  /** The call creates or duplicates a badge from the template, successfully. */
  ghost predicate Makes(s: State, c: Call, t: TemplateId) {
    && ReplyTo(s, c).Made?
    && ((c.CreateBadge? && c.template == t)
        || (c.Duplicate? && c.badge in s.badges && s.badges[c.badge].template == t))
  }

  /** Rows made from the template that the call takes away. */
  function Drops(s: State, c: Call, t: TemplateId): nat {
    if c.DeleteAccount? then |MadeBy(s.badges, t, c.user)| else 0
  }

  ghost function TimesMade(s: State, calls: seq<Call>, t: TemplateId): nat
    decreases |calls|
  {
    if calls == [] then 0 else
      (if Makes(s, calls[0], t) then 1 else 0) + TimesMade(Next(s, calls[0]), calls[1..], t)
  }

  ghost function RowsDropped(s: State, calls: seq<Call>, t: TemplateId): nat
    decreases |calls|
  {
    if calls == [] then 0 else Drops(s, calls[0], t) + RowsDropped(Next(s, calls[0]), calls[1..], t)
  }

  function Total(s: State, t: TemplateId): nat {
    if t in s.templates then s.templates[t].made else 0
  }

  /** The call's effect on the template's total and on the number of its rows. */
  ghost predicate Counts(s: State, c: Call, t: TemplateId) {
    && Total(Next(s, c), t) == Total(s, t) + (if Makes(s, c, t) then 1 else 0)
    && |MadeFrom(Next(s, c).badges, t)| + Drops(s, c, t)
       == |MadeFrom(s.badges, t)| + (if Makes(s, c, t) then 1 else 0)
  }

  lemma NewRowCounts(s: State, b: BadgeId, badge: Badge, t: TemplateId)
    requires b !in s.badges && badge.template in s.templates
    ensures Total(WithNewBadge(s, b, badge), t) == Total(s, t) + if t == badge.template then 1 else 0
    ensures |MadeFrom(s.badges[b := badge], t)| == |MadeFrom(s.badges, t)| + if t == badge.template then 1 else 0
  {
    assert MadeFrom(s.badges[b := badge], t)
        == MadeFrom(s.badges, t) + if t == badge.template then {b} else {};
  }

  lemma MakingCounts(s: State, c: Call, t: TemplateId)
    requires Enabled(s, c) && s.badges.Keys <= s.everBadges && TemplatesSound(s.badges, s.templates)
    requires c.CreateBadge? || c.Duplicate?
    ensures Counts(s, c, t)
  {
    if ReplyTo(s, c).Made? {
      NewRowCounts(s, c.newBadge, Next(s, c).badges[c.newBadge], t);
    }
    hide MadeFrom, CountedOn;
  }

  /** The rows made from the template that the user's account has. */
  function MadeBy(badges: BadgeTable, t: TemplateId, user: UserId): set<BadgeId> {
    set b | b in badges && badges[b].template == t && badges[b].organiser == user
  }

  lemma RowsGo(badges: BadgeTable, t: TemplateId, user: UserId)
    ensures |MadeFrom(BadgesWithout(badges, user), t)| + |MadeBy(badges, t, user)| == |MadeFrom(badges, t)|
  {
    assert MadeFrom(badges, t) == MadeFrom(BadgesWithout(badges, user), t) + MadeBy(badges, t, user);
    assert MadeFrom(BadgesWithout(badges, user), t) !! MadeBy(badges, t, user);
  }

  lemma DeletionUnfolds(s: State, c: Call)
    requires c.DeleteAccount?
    ensures var t := Next(s, c);
            && t.badges == BadgesWithout(s.badges, c.user) && t.inbox == Without(s.inbox, c.user)
            && t.templates == s.templates && ReplyTo(s, c) == Done
  {
    hide LogosOf, Without, BadgesWithout;
  }

  lemma DroppingCounts(s: State, c: Call, t: TemplateId)
    requires c.DeleteAccount?
    ensures Counts(s, c, t)
  {
    hide Next, ReplyTo, MadeFrom, MadeBy, BadgesWithout;
    DeletionUnfolds(s, c);
    RowsGo(s.badges, t, c.user);
  }

  lemma SameRows(before: BadgeTable, after: BadgeTable, t: TemplateId)
    requires before.Keys == after.Keys && forall b :: b in before ==> after[b].template == before[b].template
    ensures MadeFrom(after, t) == MadeFrom(before, t)
  {}

  lemma RowStays(s: State, c: Call, b: BadgeId)
    requires !c.CreateBadge? && !c.Duplicate? && !c.DeleteAccount? && Enabled(s, c)
    requires s.badges.Keys <= s.everBadges && BadgesSound(s.badges) && Next(s, c).everBadges == s.everBadges
    ensures b in Next(s, c).badges <==> b in s.badges
    ensures b in s.badges ==> Next(s, c).badges[b].template == s.badges[b].template
  {
    StepKeeps(s, c, b);
    hide Next, BadgesSound, Enabled;
  }

  /** Any other call keeps rows, their templates and the totals. */
  lemma OthersCountNothing(s: State, c: Call, t: TemplateId)
    requires !c.CreateBadge? && !c.Duplicate? && !c.DeleteAccount? && Enabled(s, c)
    requires s.badges.Keys <= s.everBadges && BadgesSound(s.badges)
    ensures Counts(s, c, t)
  {
    OthersKeepTotals(s, c, t);
    hide Next, BadgesSound, Enabled, MadeFrom, Total;
    var after := Next(s, c).badges;
    forall b: BadgeId
      ensures b in after <==> b in s.badges
      ensures b in s.badges ==> after[b].template == s.badges[b].template
    {
      RowStays(s, c, b);
    }
    SameRows(s.badges, after, t);
    OthersMakeNothing(s, c, t);
  }

  lemma OthersMakeNothing(s: State, c: Call, t: TemplateId)
    requires !c.CreateBadge? && !c.Duplicate? && !c.DeleteAccount?
    ensures !Makes(s, c, t) && Drops(s, c, t) == 0
  {}

  lemma OthersKeepTotals(s: State, c: Call, t: TemplateId)
    requires !c.CreateBadge? && !c.Duplicate? && Enabled(s, c)
    ensures Total(Next(s, c), t) == Total(s, t) && Next(s, c).everBadges == s.everBadges
  {
    hide LogosOf, Without, TargetAccess, Upsert, AllRead, Create, FindPublic, SlugTaken, BadgesWithout;
  }

  lemma {:induction false} CountsRun(s: State, calls: seq<Call>, t: TemplateId)
    requires Inv(s) && Runnable(s, calls)
    ensures Total(Run(s, calls), t) == Total(s, t) + TimesMade(s, calls, t)
    ensures |MadeFrom(Run(s, calls).badges, t)| + RowsDropped(s, calls, t)
            == |MadeFrom(s.badges, t)| + TimesMade(s, calls, t)
    decreases |calls|
  {
    if calls != [] {
      var c := calls[0];
      BadgesAreSound(s);
      BadgesEverMade(s);
      assert TemplatesSound(s.badges, s.templates) by { hide AssetsSound, BadgesSound, SlugsUnique, NoticesSound; }
      CallKeepsInv(s, c);
      hide Inv, Next, Makes, Drops, MadeFrom, Total, BadgesSound;
      if c.CreateBadge? || c.Duplicate? {
        MakingCounts(s, c, t);
      } else if c.DeleteAccount? {
        DroppingCounts(s, c, t);
      } else {
        OthersCountNothing(s, c, t);
      }
      CountsRun(Next(s, c), calls[1..], t);
    }
  }

  /**
   In every run a template's total is the number of successful creates and
   duplicates from it. Soft deletion does not touch it; of the badges made, those
   whose organiser's account was not deleted still have their rows.
   */
  lemma TemplateTotals(calls: seq<Call>, t: TemplateId)
    requires Runnable(INITIAL, calls) && t in Run(INITIAL, calls).templates
    ensures var s := Run(INITIAL, calls);
            && s.templates[t].made == TimesMade(INITIAL, calls, t)
            && s.templates[t].made == |MadeFrom(s.badges, t)| + RowsDropped(INITIAL, calls, t)
  {
    InitialSound();
    CountsRun(INITIAL, calls, t);
    assert MadeFrom(INITIAL.badges, t) == {};
  }

  // ----- Creation counts -----

  /** Creation notifications about the badge. */
  function Notices(inbox: seq<Notification>, b: BadgeId): nat {
    if inbox == [] then 0 else
      Notices(inbox[..|inbox| - 1], b) + if IsNotice(inbox[|inbox| - 1], b) then 1 else 0
  }

  lemma {:induction false} ReadingKeepsNotices(inbox: seq<Notification>, user: UserId, b: BadgeId)
    ensures Notices(AllRead(inbox, user), b) == Notices(inbox, b)
  {
    if inbox != [] {
      var n := |inbox| - 1;
      assert AllRead(inbox, user)[..n] == AllRead(inbox[..n], user);
      ReadingKeepsNotices(inbox[..n], user, b);
    }
  }

  /** Creations counted but not announced. */
  function Unannounced(s: State, b: BadgeId): int {
    (if b in s.badges then s.badges[b].creations else 0) - Notices(s.inbox, b)
  }

  lemma CreationStep(s: State, slug: string, now: int, b: BadgeId)
    ensures var (after, reply) := DoRecordCreation(s, slug, now);
            Unannounced(after, b) == Unannounced(s, b) + if reply == Counted(b, false) then 1 else 0
  {
    var found := FindPublic(s.badges, slug);
    if found.Some? {
      var badge := s.badges[found.value];
      var n := Notification(badge.organiser, BadgeCreation, AboutBadge(found.value), now, false);
      assert (s.inbox + [n])[..|s.inbox|] == s.inbox;
    }
  }

  /** The call leaves counters and notices of the badge as they were. */
  ghost predicate Quiet(s: State, c: Call, b: BadgeId) {
    Unannounced(Next(s, c), b) == Unannounced(s, b) && !ReplyTo(s, c).Counted?
  }

  lemma MakingIsQuiet(s: State, c: Call, b: BadgeId)
    requires Enabled(s, c) && (c.CreateBadge? || c.Duplicate? || c.Edit?)
    requires b in s.badges || b !in s.everBadges
    requires s.badges.Keys <= s.everBadges
    ensures Quiet(s, c, b)
  {
    hide Notices, CountedOn, TargetAccess;
  }

  lemma LifecycleIsQuiet(s: State, c: Call, b: BadgeId)
    requires c.Publish? || c.Unpublish? || c.UploadLogo? || c.DeleteBadge?
    ensures Quiet(s, c, b)
  {
    if c.UploadLogo? || c.DeleteBadge? {
      LogoCallsTouch(s, c);
      hide Next, ReplyTo;
    }
    hide Notices, SlugTaken;
  }

  /** The notices of a badge that is not the user's are not the user's either. */
  lemma {:induction false} OthersNoticesStay(inbox: seq<Notification>, user: UserId, b: BadgeId)
    requires forall n :: n in inbox && IsNotice(n, b) ==> n.user != user
    ensures Notices(Without(inbox, user), b) == Notices(inbox, b)
  {
    if inbox != [] {
      var k := |inbox| - 1;
      var rest := Without(inbox[..k], user);
      OthersNoticesStay(inbox[..k], user, b);
      if inbox[k].user == user {
        assert inbox[k] in inbox;
        assert Without(inbox, user) == rest;
      } else {
        assert Without(inbox, user) == rest + [inbox[k]];
        assert (rest + [inbox[k]])[..|rest|] == rest;
      }
    }
  }

  lemma DeletionIsQuiet(s: State, c: Call, b: BadgeId)
    requires c.DeleteAccount? && NoticesSound(s.inbox, s.badges, s.everBadges)
    requires if b in s.badges then s.badges[b].organiser != c.user else b !in s.everBadges
    ensures Quiet(s, c, b)
  {
    forall n | n in s.inbox && IsNotice(n, b)
      ensures n.user != c.user
    {
      assert NoticeSound(n, s.badges, s.everBadges);
    }
    OthersNoticesStay(s.inbox, c.user, b);
    DeletionUnfolds(s, c);
    hide Next, ReplyTo, Notices, Without;
  }

  lemma ReadingIsQuiet(s: State, c: Call, b: BadgeId)
    requires c.AddTemplate? || c.RecordShare? || c.SetPreferences? || c.ReadAll?
    ensures Quiet(s, c, b)
  {
    if c.ReadAll? { ReadingKeepsNotices(s.inbox, c.user, b); }
    hide Notices, AllRead, Upsert, FindPublic;
  }

  lemma OthersAnnounceNothing(s: State, c: Call, b: BadgeId)
    requires Enabled(s, c) && !c.RecordCreation?
    requires NoticesSound(s.inbox, s.badges, s.everBadges)
    requires b in s.badges || b !in s.everBadges
    requires b in s.badges ==> !Removes(c, s.badges[b])
    ensures Quiet(s, c, b)
  {
    assert s.badges.Keys <= s.everBadges;
    hide NoticesSound, Quiet, Enabled;
    if c.CreateBadge? || c.Duplicate? || c.Edit? {
      MakingIsQuiet(s, c, b);
    } else if c.Publish? || c.Unpublish? || c.UploadLogo? || c.DeleteBadge? {
      LifecycleIsQuiet(s, c, b);
    } else if c.DeleteAccount? {
      DeletionIsQuiet(s, c, b);
    } else {
      ReadingIsQuiet(s, c, b);
    }
  }

  /** What a call that leaves the badge its row does to its unannounced creations. */
  lemma CreationsStep(s: State, c: Call, b: BadgeId)
    requires Enabled(s, c) && NoticesSound(s.inbox, s.badges, s.everBadges)
    requires b in s.badges || b !in s.everBadges
    requires b in s.badges ==> !Removes(c, s.badges[b])
    ensures Unannounced(Next(s, c), b) == Unannounced(s, b) + if ReplyTo(s, c) == Counted(b, false) then 1 else 0
  {
    if c.RecordCreation? {
      CreationStep(s, c.slug, c.at, b);
      hide Unannounced, DoRecordCreation;
    } else {
      OthersAnnounceNothing(s, c, b);
      hide Unannounced, Next, ReplyTo;
    }
  }

  /** How often the run counts a creation of the badge while its organiser has the toggle off. */
  ghost function Muted(s: State, calls: seq<Call>, b: BadgeId): nat
    decreases |calls|
  {
    if calls == [] then 0 else
      (if ReplyTo(s, calls[0]) == Counted(b, false) then 1 else 0) + Muted(Next(s, calls[0]), calls[1..], b)
  }

  lemma {:induction false} MutedRun(s: State, calls: seq<Call>, b: BadgeId)
    requires Inv(s) && Runnable(s, calls)
    requires b in Run(s, calls).badges && (b in s.badges || b !in s.everBadges)
    ensures Unannounced(Run(s, calls), b) == Unannounced(s, b) + Muted(s, calls, b)
    decreases |calls|
  {
    if calls != [] {
      var c := calls[0];
      hide Inv, NoticesSound, BadgesSound, Enabled, Effect, Unannounced;
      BadgesAreSound(s);
      BadgesEverMade(s);
      CallKeepsInv(s, c);
      StepKeeps(s, c, b);
      RunKeeps(Next(s, c), calls[1..], b);
      CreationsStep(s, c, b);
      MutedRun(Next(s, c), calls[1..], b);
    }
  }

  /**
   In every run a badge's creation count is its creation notifications ever made
   plus the creations counted while its organiser had the toggle off.
   */
  lemma CreationsAreAccountedFor(calls: seq<Call>, b: BadgeId)
    requires Runnable(INITIAL, calls) && b in Run(INITIAL, calls).badges
    ensures var s := Run(INITIAL, calls);
            s.badges[b].creations == Notices(s.inbox, b) + Muted(INITIAL, calls, b)
  {
    InitialSound();
    MutedRun(INITIAL, calls, b);
  }
}
