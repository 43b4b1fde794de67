/**
 The badge service: its tables and the asset store as fields, its calls as methods
 proved against the steps of the badge state machine.
 */
module BadgeService {
  import opened Prelude
  import opened Notifications
  import opened Badges
  import opened BadgeInvariants

  /** After requests of which these succeeded and those failed. */
  ghost function Discarded(s: State, ok: set<string>, failed: set<string>): State {
    s.(assets := s.assets - ok, removed := s.removed + ok, refused := s.refused + failed,
       failedDeletes := s.failedDeletes + |failed|)
  }

  lemma OneMoreDiscarded(s: State, ok: set<string>, failed: set<string>, asset: string)
    ensures Discard(Discarded(s, ok, failed), asset, true) == Discarded(s, ok + {asset}, failed)
    ensures asset !in failed ==>
              Discard(Discarded(s, ok, failed), asset, false) == Discarded(s, ok, failed + {asset})
    ensures Discarded(s, {}, {}) == s
  {
    assert s.assets - ok - {asset} == s.assets - (ok + {asset});
    assert s.removed + ok + {asset} == s.removed + (ok + {asset});
    assert s.refused + failed + {asset} == s.refused + (failed + {asset});
    assert s.assets - {} == s.assets && s.removed + {} == s.removed && s.refused + {} == s.refused;
  }

  class Service {
    var badges: BadgeTable
    var templates: map<TemplateId, Template>
    var prefs: PrefTable
    var inbox: seq<Notification>
    var assets: set<string>
    // History.
    ghost var everBadges: set<BadgeId>
    ghost var everAssets: set<string>
    ghost var removed: set<string>
    ghost var refused: set<string>
    ghost var failedDeletes: nat

    ghost function Abs(): State
      reads this
    {
      State(badges, templates, prefs, inbox, assets, everBadges, everAssets, removed, refused, failedDeletes)
    }

    ghost predicate Valid()
      reads this
    {
      Inv(Abs())
    }

    constructor ()
      ensures Valid() && Abs() == INITIAL
    {
      badges, templates, prefs, inbox, assets := map[], map[], map[], [], {};
      everBadges, everAssets, removed, refused, failedDeletes := {}, {}, {}, {}, 0;
      new;
      InitialSound();
    }

    // ----- Queries -----

    method LookupPublic(slug: string) returns (r: Option<BadgeId>)
      requires SlugsUnique(badges)
      ensures r == FindPublic(badges, slug)
    {
      r := None;
      var rest := badges.Keys;
      while rest != {}
        invariant rest <= badges.Keys
        invariant forall b :: b in badges && b !in rest ==> !(HasSlug(badges[b], slug) && IsPublic(badges[b]))
        decreases rest
      {
        var b :| b in rest;
        if HasSlug(badges[b], slug) && IsPublic(badges[b]) {
          return Some(b);
        }
        rest := rest - {b};
      }
    }

    /** Whether the unique index on slugs refuses the slug for the badge. */
    method SlugClashes(slug: string, but: BadgeId) returns (taken: bool)
      ensures taken == SlugTaken(badges, slug, but)
    {
      taken := false;
      var rest := badges.Keys;
      while rest != {}
        invariant rest <= badges.Keys
        invariant taken <==> exists b :: b in badges && b !in rest && b != but && HasSlug(badges[b], slug)
        decreases rest
      {
        var b :| b in rest;
        taken := taken || (b != but && HasSlug(badges[b], slug));
        rest := rest - {b};
      }
    }

    /** The check every organiser call begins with: the badge, or the refusal. */
    method Load(organiser: UserId, b: BadgeId) returns (refusal: Option<Reply>)
      ensures refusal == Refusal(badges, organiser, b)
    {
      if b !in badges || badges[b].deletedAt.Some? {
        return Some(NotFound);
      }
      return if badges[b].organiser != organiser then Some(NotOwner) else None;
    }

    method IncrementTemplate(t: TemplateId)
      modifies `templates
      ensures templates == CountedOn(old(templates), t)
    {
      if t in templates {
        templates := templates[t := templates[t].(made := templates[t].made + 1)];
      }
    }

    /** One request to the asset store; `deletes` says whether it succeeds. */
    method DiscardAsset(asset: string, deletes: bool)
      modifies `assets, `removed, `refused, `failedDeletes
      ensures Abs() == Discard(old(Abs()), asset, deletes)
    {
      if deletes {
        assets := assets - {asset};
        removed := removed + {asset};
      } else {
        refused := refused + {asset};
        failedDeletes := failedDeletes + 1;
      }
    }

    // ----- Service calls -----

    method AddTemplate(t: TemplateId, title: string, active: bool) returns (reply: Reply)
      requires Valid() && Enabled(Abs(), Call.AddTemplate(t, title, active))
      modifies this
      ensures var c := Call.AddTemplate(t, title, active);
              Abs() == Next(old(Abs()), c) && reply == ReplyTo(old(Abs()), c)
      ensures Valid()
    {
      hide Inv, Enabled;
      CallKeepsInv(Abs(), Call.AddTemplate(t, title, active));
      templates := templates[t := Template(title, active, 0)];
      return Done;
    }

    method CreateBadge(organiser: UserId, t: TemplateId, newBadge: BadgeId) returns (reply: Reply)
      requires Valid() && Enabled(Abs(), Call.CreateBadge(organiser, t, newBadge))
      modifies this
      ensures var c := Call.CreateBadge(organiser, t, newBadge);
              Abs() == Next(old(Abs()), c) && reply == ReplyTo(old(Abs()), c)
      ensures Valid()
    {
      hide Inv, Enabled, CountedOn;
      CallKeepsInv(Abs(), Call.CreateBadge(organiser, t, newBadge));
      if t !in templates {
        return TemplateNotFound;
      }
      if !templates[t].active {
        return TemplateNotActive;
      }
      badges := badges[newBadge := Draft(organiser, t, templates[t].title)];
      everBadges := everBadges + {newBadge};
      IncrementTemplate(t);
      return Made(newBadge);
    }

    method PublishBadge(organiser: UserId, b: BadgeId, newSlug: string, now: int) returns (reply: Reply)
      requires Valid() && Enabled(Abs(), Publish(now, organiser, b, newSlug))
      modifies this
      ensures var c := Publish(now, organiser, b, newSlug);
              Abs() == Next(old(Abs()), c) && reply == ReplyTo(old(Abs()), c)
      ensures Valid()
    {
      hide Inv, Enabled;
      CallKeepsInv(Abs(), Publish(now, organiser, b, newSlug));
      var refusal := Load(organiser, b);
      if refusal.Some? {
        return refusal.value;
      }
      if badges[b].published {
        return AlreadyPublished;
      }
      var before := badges;
      badges := badges[b := badges[b].(published := true)];
      badges := badges[b := badges[b].(publishedAt := Some(now))];
      if badges[b].slug.None? || badges[b].slug.value == "" {
        badges := badges[b := badges[b].(slug := Some(newSlug))];
      }
      var clash := SlugClashes(badges[b].slug.value, b);
      OwnRowDoesNotClash(before, b, badges[b], badges[b].slug.value);
      assert badges == before[b := badges[b]];
      if clash {
        badges := before;
        return CommitFailed;
      }
      return Done;
    }

    method UnpublishBadge(organiser: UserId, b: BadgeId) returns (reply: Reply)
      requires Valid() && Enabled(Abs(), Unpublish(organiser, b))
      modifies this
      ensures var c := Unpublish(organiser, b);
              Abs() == Next(old(Abs()), c) && reply == ReplyTo(old(Abs()), c)
      ensures Valid()
    {
      hide Inv, Enabled;
      CallKeepsInv(Abs(), Unpublish(organiser, b));
      var refusal := Load(organiser, b);
      if refusal.Some? {
        return refusal.value;
      }
      badges := badges[b := badges[b].(published := false, publishedAt := None)];
      return Done;
    }

    /** `uploads`, `commits` and `deletes` say which requests succeed. */
    method UploadBadgeLogo(
      organiser: UserId, b: BadgeId, asset: string, uploads: bool, commits: bool, deletes: bool) returns (reply: Reply)
      requires Valid() && Enabled(Abs(), UploadLogo(organiser, b, asset, uploads, commits, deletes))
      modifies this
      ensures var c := UploadLogo(organiser, b, asset, uploads, commits, deletes);
              Abs() == Next(old(Abs()), c) && reply == ReplyTo(old(Abs()), c)
      ensures Valid()
    {
      hide Inv, Enabled;
      CallKeepsInv(Abs(), UploadLogo(organiser, b, asset, uploads, commits, deletes));
      var refusal := Load(organiser, b);
      if refusal.Some? {
        return refusal.value;
      }
      var last := badges[b].logo;
      if !uploads {
        return UploadFailed;
      }
      assets := assets + {asset};
      everAssets := everAssets + {asset};
      if !commits {
        DiscardAsset(asset, deletes);
        return CommitFailed;
      }
      badges := badges[b := badges[b].(logo := Some(asset))];
      if last.Some? {
        DiscardAsset(last.value, deletes);
      }
      return Done;
    }

    method DeleteBadge(organiser: UserId, b: BadgeId, deletes: bool, now: int) returns (reply: Reply)
      requires Valid() && Enabled(Abs(), Call.DeleteBadge(now, organiser, b, deletes))
      modifies this
      ensures var c := Call.DeleteBadge(now, organiser, b, deletes);
              Abs() == Next(old(Abs()), c) && reply == ReplyTo(old(Abs()), c)
      ensures Valid()
    {
      hide Inv, Enabled;
      CallKeepsInv(Abs(), Call.DeleteBadge(now, organiser, b, deletes));
      var refusal := Load(organiser, b);
      if refusal.Some? {
        return refusal.value;
      }
      var logo := badges[b].logo;
      badges := badges[b := badges[b].(deletedAt := Some(now), published := false, publishedAt := None)];
      if logo.Some? {
        DiscardAsset(logo.value, deletes);
      }
      return Done;
    }

    method DuplicateBadge(organiser: UserId, b: BadgeId, newBadge: BadgeId) returns (reply: Reply)
      requires Valid() && Enabled(Abs(), Duplicate(organiser, b, newBadge))
      modifies this
      ensures var c := Duplicate(organiser, b, newBadge);
              Abs() == Next(old(Abs()), c) && reply == ReplyTo(old(Abs()), c)
      ensures Valid()
    {
      hide Inv, Enabled, CountedOn;
      CallKeepsInv(Abs(), Duplicate(organiser, b, newBadge));
      var refusal := Load(organiser, b);
      if refusal.Some? {
        return refusal.value;
      }
      var original := badges[b];
      var copy := Draft(organiser, original.template, original.title + " (Copy)")
                  .(accessType := original.accessType, accessCode := original.accessCode);
      for i := 0 to |original.hashtags|
        invariant copy == Draft(organiser, original.template, original.title + " (Copy)")
                          .(accessType := original.accessType, accessCode := original.accessCode,
                            hashtags := original.hashtags[..i])
      {
        copy := copy.(hashtags := copy.hashtags + [original.hashtags[i]]);
      }
      assert original.hashtags[..|original.hashtags|] == original.hashtags;
      badges := badges[newBadge := copy];
      everBadges := everBadges + {newBadge};
      IncrementTemplate(original.template);
      return Made(newBadge);
    }

    /** Clears the list, then appends one by one. */
    method ReplaceHashtags(badge: Badge, tags: seq<string>) returns (r: Badge)
      ensures r == badge.(hashtags := tags)
    {
      r := badge.(hashtags := []);
      for i := 0 to |tags|
        invariant r == badge.(hashtags := tags[..i])
      {
        r := r.(hashtags := r.hashtags + [tags[i]]);
      }
      assert tags[..|tags|] == tags;
    }

    method EditBadge(organiser: UserId, b: BadgeId, u: Updates) returns (reply: Reply)
      requires Valid() && Enabled(Abs(), Edit(organiser, b, u))
      modifies this
      ensures var c := Edit(organiser, b, u);
              Abs() == Next(old(Abs()), c) && reply == ReplyTo(old(Abs()), c)
      ensures Valid()
    {
      hide Inv, Enabled;
      CallKeepsInv(Abs(), Edit(organiser, b, u));
      var refusal := Load(organiser, b);
      if refusal.Some? {
        return refusal.value;
      }
      var badge := badges[b];
      if u.accessType.Set? || u.accessCode.Set? {
        var targetType := if u.accessType.Set? then u.accessType.value else Some(badge.accessType);
        var targetCode := if u.accessCode.Set? then u.accessCode.value else badge.accessCode;
        if targetType == Some(1) {
          if targetCode.None? || |targetCode.value| < 4 || |targetCode.value| > 10 {
            return InvalidAccess;
          }
          badge := badge.(accessType := 1, accessCode := targetCode);
        } else if targetType == Some(0) {
          badge := badge.(accessType := 0, accessCode := None);
        } else {
          return InvalidAccess;
        }
      }
      if u.title.Set? {
        if u.title.value.None? {
          return CommitFailed;
        }
        badge := badge.(title := u.title.value.value);
      }
      if u.hashtags.Set? {
        badge := ReplaceHashtags(badge, u.hashtags.value);
      }
      badges := badges[b := badge];
      return Done;
    }

    method RecordBadgeCreation(slug: string, now: int) returns (reply: Reply)
      requires Valid() && Enabled(Abs(), RecordCreation(now, slug))
      modifies this
      ensures var c := RecordCreation(now, slug);
              Abs() == Next(old(Abs()), c) && reply == ReplyTo(old(Abs()), c)
      ensures Valid()
    {
      hide Inv, FindPublic, Enabled, SlugsUnique;
      CallKeepsInv(Abs(), RecordCreation(now, slug));
      SlugsAreUnique(Abs());
      var found := LookupPublic(slug);
      if found.None? {
        return NotFound;
      }
      var b := found.value;
      badges := badges[b := badges[b].(creations := badges[b].creations + 1)];
      var organiser := badges[b].organiser;
      if organiser in prefs && !prefs[organiser][NotifyBadgeCreation] {
        return Counted(b, false);
      }
      inbox := inbox + [Notification(organiser, BadgeCreation, AboutBadge(b), now, false)];
      return Counted(b, true);
    }

    method RecordBadgeShare(slug: string) returns (reply: Reply)
      requires Valid() && Enabled(Abs(), RecordShare(slug))
      modifies this
      ensures var c := RecordShare(slug);
              Abs() == Next(old(Abs()), c) && reply == ReplyTo(old(Abs()), c)
      ensures Valid()
    {
      hide Inv, FindPublic, Enabled, SlugsUnique;
      CallKeepsInv(Abs(), RecordShare(slug));
      SlugsAreUnique(Abs());
      var found := LookupPublic(slug);
      if found.None? {
        return NotFound;
      }
      badges := badges[found.value := badges[found.value].(shares := badges[found.value].shares + 1)];
      return Done;
    }

    // ----- Account deletion -----

    method CollectLogos(user: UserId) returns (logos: set<string>)
      ensures logos == LogosOf(badges, user)
    {
      logos := {};
      var rest := badges.Keys;
      while rest != {}
        invariant rest <= badges.Keys
        invariant logos == set b | b in badges && b !in rest && badges[b].organiser == user && badges[b].logo.Some? ::
                             badges[b].logo.value
        decreases rest
      {
        var b :| b in rest;
        if badges[b].organiser == user && badges[b].logo.Some? {
          logos := logos + {badges[b].logo.value};
        }
        rest := rest - {b};
      }
    }

    method DropBadges(user: UserId)
      modifies `badges
      ensures badges == BadgesWithout(old(badges), user)
    {
      ghost var before := badges;
      var rest := badges.Keys;
      while rest != {}
        invariant rest <= badges.Keys <= before.Keys
        invariant forall b :: b in badges ==> badges[b] == before[b]
        invariant forall b :: b in before && b !in rest ==> (b in badges <==> before[b].organiser != user)
        decreases rest
      {
        var b :| b in rest;
        rest := rest - {b};
        if badges[b].organiser == user {
          badges := badges - {b};
        }
      }
    }

    method DropNotifications(user: UserId)
      modifies `inbox
      ensures inbox == Without(old(inbox), user)
    {
      var kept: seq<Notification> := [];
      for i := 0 to |inbox|
        invariant inbox == old(inbox) && kept == Without(inbox[..i], user)
      {
        assert inbox[..i + 1][..i] == inbox[..i];
        if inbox[i].user != user {
          kept := kept + [inbox[i]];
        }
      }
      assert inbox[..|inbox|] == inbox;
      inbox := kept;
    }

    /** One request for each logo; `granted` are those that succeed. */
    method DiscardLogos(logos: set<string>, granted: set<string>)
      modifies `assets, `removed, `refused, `failedDeletes
      ensures Abs() == Discarded(old(Abs()), logos * granted, logos - granted)
    {
      ghost var before := Abs();
      ghost var ok: set<string> := {};
      ghost var failed: set<string> := {};
      var rest := logos;
      while rest != {}
        invariant forall a :: a in ok <==> a in logos && a !in rest && a in granted
        invariant forall a :: a in failed <==> a in logos && a !in rest && a !in granted
        invariant rest <= logos && Abs() == Discarded(before, ok, failed)
        decreases rest
      {
        var asset :| asset in rest;
        OneMoreDiscarded(before, ok, failed, asset);
        hide Discarded, Discard;
        DiscardAsset(asset, asset in granted);
        rest := rest - {asset};
        if asset in granted { ok := ok + {asset}; } else { failed := failed + {asset}; }
      }
      assert ok == logos * granted && failed == logos - granted;
    }

    method DeleteAccount(user: UserId, granted: set<string>) returns (reply: Reply)
      requires Valid() && Enabled(Abs(), Call.DeleteAccount(user, granted))
      modifies this
      ensures var c := Call.DeleteAccount(user, granted);
              Abs() == Next(old(Abs()), c) && reply == ReplyTo(old(Abs()), c)
      ensures Valid()
    {
      hide Inv, Enabled, LogosOf, BadgesWithout, Without;
      CallKeepsInv(Abs(), Call.DeleteAccount(user, granted));
      var logos := CollectLogos(user);
      DropBadges(user);
      prefs := prefs - {user};
      DropNotifications(user);
      DiscardLogos(logos, granted);
      return Done;
    }
  }
}
