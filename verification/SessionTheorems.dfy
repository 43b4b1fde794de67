/** What runs of service calls guarantee about token families, sessions and accounts. */
module SessionTheorems {
  import opened Prelude
  import opened Redis
  import opened Settings
  import opened AccessTokens
  import opened Sessions
  import opened SessionInvariants
  import opened Footprints
  import Lockout
  import Verification

  /** The replies of a run, call by call. */
  ghost function Replies(s: State, calls: seq<Call>): (r: seq<Reply>)
    ensures |r| == |calls|
    decreases |calls|
  {
    if calls == [] then [] else [ReplyTo(s, calls[0])] + Replies(Next(s, calls[0]), calls[1..])
  }

  // ----- One live token in each family -----

  function RowsOf(tokens: Tokens, f: Family): set<string> {
    set h | h in tokens && tokens[h].family == f
  }

  /**
   A family's rows are one rotation chain: all of one owner, exactly the tokens
   the family went through, and none unrevoked but possibly the newest.
   */
  lemma FamilyIsOneChain(s: State, f: Family)
    requires Reachable(s) && RowsOf(s.tokens, f) != {}
    ensures f in s.chains && s.chains[f].hashes != []
    ensures RowsOf(s.tokens, f) == set h | h in s.chains[f].hashes
    ensures forall h :: h in RowsOf(s.tokens, f) ==> s.tokens[h].user == s.chains[f].owner
    ensures forall h :: h in RowsOf(s.tokens, f) && !s.tokens[h].revoked ==>
              h == s.chains[f].hashes[|s.chains[f].hashes| - 1]
  {
    ReachableSound(s);
    var h :| h in RowsOf(s.tokens, f);
    UnrevokedIsNewest(s.tokens, s.chains, s.signed, h);
    forall k | k in RowsOf(s.tokens, f)
      ensures k in s.chains[f].hashes && s.tokens[k].user == s.chains[f].owner
      ensures !s.tokens[k].revoked ==> k == s.chains[f].hashes[|s.chains[f].hashes| - 1]
    {
      UnrevokedIsNewest(s.tokens, s.chains, s.signed, k);
      assert RowSound(k, s.tokens[k], s.chains);
    }
    forall k | k in s.chains[f].hashes
      ensures k in RowsOf(s.tokens, f)
    {
      var i :| 0 <= i < |s.chains[f].hashes| && s.chains[f].hashes[i] == k;
    }
  }

  lemma OneLiveTokenPerFamily(s: State, h1: string, h2: string)
    requires Reachable(s)
    requires h1 in s.tokens && h2 in s.tokens && s.tokens[h1].family == s.tokens[h2].family
    requires !s.tokens[h1].revoked && !s.tokens[h2].revoked
    ensures h1 == h2
  {
    ReachableSound(s);
    UnrevokedIsNewest(s.tokens, s.chains, s.signed, h1);
    UnrevokedIsNewest(s.tokens, s.chains, s.signed, h2);
  }

  // ----- Dead families stay dead; one alert each -----

  ghost predicate DeadFamily(s: State, f: Family) {
    f in s.chains && forall h :: h in s.tokens && s.tokens[h].family == f ==> s.tokens[h].revoked
  }

  /** The call rotates a token of the family. */
  ghost predicate Rotates(s: State, c: Call, f: Family) {
    c.Refresh? && c.token in s.tokens && s.tokens[c.token].family == f && ReplyTo(s, c).Rotated?
  }

  /** Tokens of the family that are unrevoked after were unrevoked before. */
  ghost predicate NoneRevived(before: Tokens, after: Tokens, f: Family) {
    forall h :: h in after && after[h].family == f && !after[h].revoked ==>
      h in before && before[h].family == f && !before[h].revoked
  }

  ghost predicate KeepsFamily(tokens: Tokens, chains: Chains, after: State, f: Family)
    requires f in chains
  {
    && f in after.chains && after.chains[f] == chains[f]
    && NoneRevived(tokens, after.tokens, f)
  }

  lemma OpeningKeepsFamily(s: State, user: UserId, g: Grant, now: int, f: Family)
    requires f in s.chains && g.family !in s.chains
    ensures KeepsFamily(s.tokens, s.chains, OpenSession(s, user, g, now), f)
  {}

  lemma LogoutKeepsFamily(s: State, refresh: Option<string>, cookie: Option<string>, now: int, f: Family)
    requires f in s.chains
    ensures KeepsFamily(s.tokens, s.chains, DoLogout(s, refresh, cookie, now), f)
  {}

  lemma VerifyEmailKeepsFamily(s: State, mailed: string, g: Grant, commits: bool, f: Family)
    requires f in s.chains && g.family !in s.chains
    ensures KeepsFamily(s.tokens, s.chains, DoVerifyEmail(s, mailed, g, commits, s.clock).0, f)
  {
    var s' := s.(index := Verification.Redeem(s.index, mailed, s.clock));
    match Verification.Lookup(s.index, mailed, s.clock)
    case None =>
    case Some(u) =>
      if u in s.users {
        OpeningKeepsFamily(s'.(users := s.users[u := s.users[u].(verified := true)]), u, g, s.clock, f);
      }
  }

  lemma SignInKeepsFamily(s: State, email: string, password: string, g: Grant, f: Family)
    requires f in s.chains && g.family !in s.chains
    ensures KeepsFamily(s.tokens, s.chains, DoSignIn(s, email, password, g, s.clock).0, f)
  {
    if CredentialsPass(s.users, email, password) {
      OpeningKeepsFamily(s.(counters := Delete(s.counters, email)), FindUser(s.users, email).value, g, s.clock, f);
    }
  }

  lemma GoogleKeepsFamily(s: State, subject: string, email: string, newUser: UserId, g: Grant, f: Family)
    requires f in s.chains && g.family !in s.chains
    ensures KeepsFamily(s.tokens, s.chains, DoGoogleCallback(s, subject, email, newUser, g, s.clock).0, f)
  {
    UpsertTouchesOnlyAccounts(s, subject, email, newUser);
    hide UpsertGoogleUser;
    var (s', user) := UpsertGoogleUser(s, subject, email, newUser);
    if user.Success? {
      OpeningKeepsFamily(s', user.value, g, s.clock, f);
    }
  }

  lemma RefreshKeepsFamily(s: State, token: string, cookie: Option<string>, renewal: Renewal, f: Family)
    requires f in s.chains && token in s.tokens
    requires s.tokens[token].family != f || !DoRefresh(s, token, cookie, renewal, s.clock).1.Rotated?
    ensures KeepsFamily(s.tokens, s.chains, DoRefresh(s, token, cookie, renewal, s.clock).0, f)
  {}

  lemma MailAndProfileKeepFamily(s: State, c: Call, f: Family)
    requires f in s.chains
    requires c.SignUp? || c.ResendVerification? || c.RequestReset? || c.UpdateProfile?
    ensures KeepsFamily(s.tokens, s.chains, Next(s, c), f)
  {
    Framed(s, c);
    hide Next;
  }

  lemma LogoutAllKeepsFamily(s: State, user: UserId, cookie: Option<string>, f: Family)
    requires f in s.chains
    ensures KeepsFamily(s.tokens, s.chains, DoLogoutAll(s, user, cookie, s.clock).0, f)
  {
    hide BlacklistIfValid, Decode, ActiveSessions;
  }

  lemma ResetKeepsFamily(s: State, mailed: string, password: string, f: Family)
    requires f in s.chains
    ensures KeepsFamily(s.tokens, s.chains, DoResetPassword(s, mailed, password, s.clock).0, f)
  {}

  lemma ChangePasswordKeepsFamily(
    s: State, user: UserId, current: string, password: string, refresh: Option<string>, cookie: Option<string>,
    f: Family)
    requires f in s.chains
    ensures KeepsFamily(s.tokens, s.chains,
                        DoChangePassword(s, user, current, password, refresh, cookie, s.clock).0, f)
  {
    if user in s.users {
      LogoutKeepsFamily(s.(users := s.users[user := s.users[user].(password := Some(password))]),
                        refresh, cookie, s.clock, f);
    }
    hide DoLogout;
  }

  lemma DeletionKeepsFamily(s: State, user: UserId, refresh: Option<string>, cookie: Option<string>, f: Family)
    requires f in s.chains
    ensures KeepsFamily(s.tokens, s.chains, DoDeleteProfile(s, user, refresh, cookie, s.clock), f)
  {
    LogoutKeepsFamily(DropUser(s, user), refresh, cookie, s.clock, f);
    hide DoLogout;
  }

  lemma OtherCallsKeepFamily(s: State, c: Call, f: Family)
    requires Enabled(s, c) && f in s.chains && !Rotates(s, c, f)
    ensures KeepsFamily(s.tokens, s.chains, Next(s, c), f)
  {
    var t := At(s, c.at);
    if c.Refresh? && c.token !in s.tokens {
    } else {
      hide KeepsFamily;
      match c
      case VerifyEmail(_, mailed, grant, commits) => VerifyEmailKeepsFamily(t, mailed, grant, commits, f);
      case SignIn(_, email, password, grant) => SignInKeepsFamily(t, email, password, grant, f);
      case GoogleCallback(_, subject, email, newUser, grant) => GoogleKeepsFamily(t, subject, email, newUser, grant, f);
      case Refresh(_, token, cookie, renewal) => RefreshKeepsFamily(t, token, cookie, renewal, f);
      case SignUp(_, _, _, _, _) => MailAndProfileKeepFamily(s, c, f);
      case ResendVerification(_, _, _) => MailAndProfileKeepFamily(s, c, f);
      case RequestReset(_, _, _) => MailAndProfileKeepFamily(s, c, f);
      case UpdateProfile(_, _, _) => MailAndProfileKeepFamily(s, c, f);
      case Logout(_, refresh, cookie) => LogoutKeepsFamily(t, refresh, cookie, c.at, f);
      case LogoutAll(_, user, cookie) => LogoutAllKeepsFamily(t, user, cookie, f);
      case ResetPassword(_, mailed, password) => ResetKeepsFamily(t, mailed, password, f);
      case ChangePassword(_, user, current, password, refresh, cookie) =>
        ChangePasswordKeepsFamily(t, user, current, password, refresh, cookie, f);
      case DeleteProfile(_, user, refresh, cookie) => DeletionKeepsFamily(t, user, refresh, cookie, f);
    }
  }

  /** What any call can do to a family that exists. */
  lemma FamilyEffect(s: State, c: Call, f: Family)
    requires Inv(s) && Enabled(s, c) && f in s.chains
    ensures f in Next(s, c).chains
    ensures !Rotates(s, c, f) ==>
              && Next(s, c).chains[f] == s.chains[f]
              && NoneRevived(s.tokens, Next(s, c).tokens, f)
              && (HasUnrevoked(Next(s, c).tokens, f) ==> HasUnrevoked(s.tokens, f))
    ensures Rotates(s, c, f) ==>
              && HasUnrevoked(s.tokens, f)
              && s.chains[f].hashes != [] && c.token == s.chains[f].hashes[|s.chains[f].hashes| - 1]
              && Next(s, c).chains[f] == s.chains[f].(hashes := s.chains[f].hashes + [c.renewal.refresh])
  {
    if Rotates(s, c, f) {
      UnrevokedIsNewest(s.tokens, s.chains, s.signed, c.token);
    } else {
      OtherCallsKeepFamily(s, c, f);
    }
  }

  lemma DeadFamilyRefuses(s: State, c: Call, f: Family)
    requires Inv(s) && Enabled(s, c) && DeadFamily(s, f)
    ensures DeadFamily(Next(s, c), f) && Next(s, c).chains[f] == s.chains[f]
    ensures c.Refresh? && c.token in s.chains[f].hashes ==> !ReplyTo(s, c).Rotated?
  {
    FamilyEffect(s, c, f);
    if c.Refresh? && c.token in s.chains[f].hashes && c.token in s.tokens {
      assert RowSound(c.token, s.tokens[c.token], s.chains);
      assert s.tokens[c.token].family == f;
    }
  }

  lemma {:induction false} DeadFamilyRun(s: State, calls: seq<Call>, f: Family)
    requires Inv(s) && Runnable(s, calls) && DeadFamily(s, f)
    ensures DeadFamily(Run(s, calls), f)
    ensures forall i :: 0 <= i < |calls| && calls[i].Refresh? && calls[i].token in s.chains[f].hashes ==>
              !Replies(s, calls)[i].Rotated?
    decreases |calls|
  {
    if calls != [] {
      var c := calls[0];
      DeadFamilyRefuses(s, c, f);
      CallKeepsInv(s, c);
      DeadFamilyRun(Next(s, c), calls[1..], f);
      var later := Replies(Next(s, c), calls[1..]);
      hide Inv;
      forall i | 0 <= i < |calls| && calls[i].Refresh? && calls[i].token in s.chains[f].hashes
        ensures !Replies(s, calls)[i].Rotated?
      {
        if i > 0 { assert calls[1..][i - 1] == calls[i] && Replies(s, calls)[i] == later[i - 1]; }
      }
    }
  }

  /**
   Once a family has no unrevoked row, nothing gives it one again, and every later
   refresh with any token it ever went through is refused.
   */
  lemma DeadFamilyStaysDead(s: State, calls: seq<Call>, f: Family)
    requires Reachable(s) && Runnable(s, calls) && DeadFamily(s, f)
    ensures DeadFamily(Run(s, calls), f)
    ensures forall i :: 0 <= i < |calls| && calls[i].Refresh? && calls[i].token in s.chains[f].hashes ==>
              !Replies(s, calls)[i].Rotated?
  {
    ReachableSound(s);
    hide Inv;
    DeadFamilyRun(s, calls, f);
  }

  lemma ReuseIsOfRotated(s: State, token: string, cookie: Option<string>, renewal: Renewal)
    requires FamiliesSound(s.tokens, s.chains, s.signed) && RowsOwned(s.tokens, s.users)
    requires DoRefresh(s, token, cookie, renewal, s.clock).1.ReuseDetected?
    ensures token in s.tokens && s.tokens[token].revoked && !WithinGrace(s.tokens[token], s.clock)
    ensures var (after, reply) := DoRefresh(s, token, cookie, renewal, s.clock);
            && reply.family == s.tokens[token].family && DeadFamily(after, reply.family)
            && (reply.alerted <==>
                  exists h :: h in s.tokens && s.tokens[h].family == reply.family && !s.tokens[h].revoked)
            && (reply.alerted ==>
                  exists i :: 0 <= i < |s.chains[reply.family].hashes| - 1 && s.chains[reply.family].hashes[i] == token)
  {
    var f := s.tokens[token].family;
    assert RowSound(token, s.tokens[token], s.chains);
    var i :| 0 <= i < |s.chains[f].hashes| && s.chains[f].hashes[i] == token;
    if HasUnrevoked(s.tokens, f) {
      var h :| h in s.tokens && s.tokens[h].family == f && !s.tokens[h].revoked;
      UnrevokedIsNewest(s.tokens, s.chains, s.signed, h);
    }
    hide FamiliesSound;
  }

  lemma OnlyRefreshDetectsReuse(s: State, c: Call)
    requires ReplyTo(s, c).ReuseDetected?
    ensures c.Refresh?
  {}

  lemma ReuseStep(s: State, c: Call)
    requires Inv(s) && Enabled(s, c) && ReplyTo(s, c).ReuseDetected?
    ensures c.Refresh? && c.token in s.tokens && s.tokens[c.token].revoked
    ensures !WithinGrace(s.tokens[c.token], c.at)
    ensures var f := ReplyTo(s, c).family;
            && f == s.tokens[c.token].family && DeadFamily(Next(s, c), f)
            && (ReplyTo(s, c).alerted <==> exists h :: h in s.tokens && s.tokens[h].family == f && !s.tokens[h].revoked)
            && (ReplyTo(s, c).alerted ==>
                  exists i :: 0 <= i < |s.chains[f].hashes| - 1 && s.chains[f].hashes[i] == c.token)
  {
    OnlyRefreshDetectsReuse(s, c);
    hide FamiliesSound, AccountsSound, RowsOwned, DoRefresh;
    ReuseIsOfRotated(At(s, c.at), c.token, c.cookie, c.renewal);
    hide Inv;
  }

  /** A replay of a revoked token within the grace period changes nothing. */
  lemma GraceReplayChangesNothing(s: State, c: Call)
    requires c.Refresh? && c.token in s.tokens && s.tokens[c.token].revoked
    ensures var used := s.tokens[c.token].lastUsed;
            if used.Some? && c.at - used.value <= REFRESH_REUSE_GRACE then
              Next(s, c) == At(s, c.at) && ReplyTo(s, c) == Failed(InvalidRefreshToken)
            else
              ReplyTo(s, c).ReuseDetected?
  {}

  lemma ReuseOnlyOutsideGrace(s: State, c: Call)
    ensures ReplyTo(s, c).ReuseDetected? <==>
              && c.Refresh? && c.token in s.tokens && s.tokens[c.token].revoked
              && (s.tokens[c.token].lastUsed.Some? ==> c.at - s.tokens[c.token].lastUsed.value > REFRESH_REUSE_GRACE)
  {
    if ReplyTo(s, c).ReuseDetected? {
      OnlyRefreshDetectsReuse(s, c);
    }
    if c.Refresh? && c.token in s.tokens && s.tokens[c.token].revoked {
      GraceReplayChangesNothing(s, c);
    }
  }

  /**
   Reuse is detected exactly when a revoked token is replayed outside the grace
   period; within it the replay changes nothing. Detection leaves the family dead, and
   raises an alert exactly when an unrevoked descendant of the replayed token was left.
   */
  lemma AlertMeansReuse(s: State, c: Call)
    requires Reachable(s) && Enabled(s, c)
    ensures ReplyTo(s, c).ReuseDetected? <==>
              && c.Refresh? && c.token in s.tokens && s.tokens[c.token].revoked
              && (s.tokens[c.token].lastUsed.Some? ==> c.at - s.tokens[c.token].lastUsed.value > REFRESH_REUSE_GRACE)
    ensures c.Refresh? && c.token in s.tokens && s.tokens[c.token].revoked && s.tokens[c.token].lastUsed.Some?
            && c.at - s.tokens[c.token].lastUsed.value <= REFRESH_REUSE_GRACE ==>
              Next(s, c) == At(s, c.at) && ReplyTo(s, c) == Failed(InvalidRefreshToken)
    ensures ReplyTo(s, c).ReuseDetected? ==>
              var f := ReplyTo(s, c).family;
              && f == s.tokens[c.token].family && DeadFamily(Next(s, c), f)
              && (ReplyTo(s, c).alerted <==>
                    exists h :: h in s.tokens && s.tokens[h].family == f && !s.tokens[h].revoked)
              && (ReplyTo(s, c).alerted ==>
                    exists i :: 0 <= i < |s.chains[f].hashes| - 1 && s.chains[f].hashes[i] == c.token)
  {
    ReachableSound(s);
    ReuseOnlyOutsideGrace(s, c);
    if c.Refresh? && c.token in s.tokens && s.tokens[c.token].revoked {
      GraceReplayChangesNothing(s, c);
    }
    hide Inv, Next, ReplyTo;
    if ReplyTo(s, c).ReuseDetected? {
      ReuseStep(s, c);
    }
  }

  /** The reuse alerts a run raises for a family. */
  ghost function Alerts(s: State, calls: seq<Call>, f: Family): nat
    decreases |calls|
  {
    if calls == [] then 0 else
      (if ReplyTo(s, calls[0]) == ReuseDetected(f, true) then 1 else 0) + Alerts(Next(s, calls[0]), calls[1..], f)
  }

  lemma {:induction false} AlertsBounded(s: State, calls: seq<Call>, f: Family)
    requires Inv(s) && Runnable(s, calls)
    ensures Alerts(s, calls, f) <= if DeadFamily(s, f) then 0 else 1
    decreases |calls|
  {
    if calls != [] {
      var c := calls[0];
      CallKeepsInv(s, c);
      AlertsBounded(Next(s, c), calls[1..], f);
      if ReplyTo(s, c) == ReuseDetected(f, true) {
        ReuseStep(s, c);
      } else if DeadFamily(s, f) {
        DeadFamilyRefuses(s, c, f);
      }
    }
  }

  /** Over a whole run at most one reuse alert is raised for each family. */
  lemma AtMostOneAlert(calls: seq<Call>, f: Family)
    requires Runnable(INITIAL, calls)
    ensures Alerts(INITIAL, calls, f) <= 1
  {
    InitialSound();
    AlertsBounded(INITIAL, calls, f);
  }
}
