/**
 What becomes of each row of the token table, call by call and over whole runs,
 said of the rows' own fields.
 */
module TokenTheorems {
  import opened Prelude
  import opened Redis
  import opened Settings
  import opened AccessTokens
  import opened Sessions
  import opened SessionInvariants
  import opened Footprints
  import opened SessionTheorems
  import Lockout
  import Verification

  // ----- The fate of a stored row -----

  /** The call deletes the rows of the user: their account goes, or their password is reset. */
  ghost predicate DeletesRows(s: State, c: Call, user: UserId) {
    || (c.DeleteProfile? && c.user == user)
    || (&& c.ResetPassword? && user in s.users
        && c.mailed in s.resets && s.resets[c.mailed].value == user
        && (s.resets[c.mailed].expiresAt.Some? ==> c.at < s.resets[c.mailed].expiresAt.value))
  }

  /** The call rotates the row: it was not revoked, has not run out, and its user exists. */
  ghost predicate Spends(s: State, c: Call, h: string)
    requires h in s.tokens
  {
    && c.Refresh? && c.token == h
    && !s.tokens[h].revoked && c.at <= s.tokens[h].expiresAt && s.tokens[h].user in s.users
  }

  /** The call logs out with this refresh token. */
  ghost predicate LogsOut(s: State, c: Call, h: string) {
    && (|| c.Logout? || c.DeleteProfile?
        || (c.ChangePassword? && c.user in s.users && s.users[c.user].password == Some(c.current)))
    && c.refresh == Some(h)
  }

  /** The call presents a revoked row, last used longer ago than the grace period. */
  ghost predicate Replays(s: State, c: Call) {
    && c.Refresh? && c.token in s.tokens && s.tokens[c.token].revoked
    && (s.tokens[c.token].lastUsed.Some? ==> c.at - s.tokens[c.token].lastUsed.value > REFRESH_REUSE_GRACE)
  }

  /** The call revokes the row without rotating it. */
  ghost predicate Revokes(s: State, c: Call, h: string)
    requires h in s.tokens
  {
    || LogsOut(s, c, h)
    || (c.LogoutAll? && s.tokens[h].user == c.user && c.at < s.tokens[h].expiresAt)
    || (Replays(s, c) && s.tokens[h].family == s.tokens[c.token].family)
  }

  ghost function Fate(s: State, c: Call, h: string): Row
    requires h in s.tokens
  {
    var row := s.tokens[h];
    if Spends(s, c, h) then row.(revoked := true, lastUsed := Some(c.at))
    else if Revokes(s, c, h) then row.(revoked := true)
    else row
  }

  ghost predicate Follows(s: State, c: Call, h: string, after: Tokens)
    requires h in s.tokens
  {
    && (h in after <==> !DeletesRows(s, c, s.tokens[h].user))
    && (h in after ==> after[h] == Fate(s, c, h))
  }

  lemma StoredAreSigned(s: State, h: string)
    requires Inv(s) && h in s.tokens
    ensures h in s.signed && s.tokens[h].lastUsed.Some?
  {
    hide AccountsSound;
    assert RowSound(h, s.tokens[h], s.chains);
  }

  lemma VerifyEmailFollows(s: State, mailed: string, grant: Grant, commits: bool, h: string)
    requires h in s.tokens && h != grant.refresh
    ensures Follows(s, VerifyEmail(s.clock, mailed, grant, commits), h,
                    DoVerifyEmail(s, mailed, grant, commits, s.clock).0.tokens)
  {
    hide Verification.Redeem, Verification.Lookup, MintAccess, MintRefresh;
  }

  lemma SignInFollows(s: State, email: string, password: string, grant: Grant, h: string)
    requires h in s.tokens && h != grant.refresh
    ensures Follows(s, SignIn(s.clock, email, password, grant), h,
                    DoSignIn(s, email, password, grant, s.clock).0.tokens)
  {
    hide FindUser, CredentialsPass, Lockout.Locked, Lockout.Incremented, Lockout.FailureCount, Delete;
    hide MintAccess, MintRefresh;
  }

  lemma GoogleFollows(s: State, subject: string, email: string, newUser: UserId, grant: Grant, h: string)
    requires h in s.tokens && h != grant.refresh
    ensures Follows(s, GoogleCallback(s.clock, subject, email, newUser, grant), h,
                    DoGoogleCallback(s, subject, email, newUser, grant, s.clock).0.tokens)
  {
    UpsertTouchesOnlyAccounts(s, subject, email, newUser);
    hide UpsertGoogleUser, MintAccess, MintRefresh;
  }

  lemma RotatingSpends(s: State, token: string, renewal: Renewal, h: string)
    requires token in s.tokens && h in s.tokens && h != renewal.refresh
    ensures var after := Rotate(s, token, renewal, s.clock).tokens;
            && h in after
            && after[h] == if h == token then s.tokens[h].(revoked := true, lastUsed := Some(s.clock)) else s.tokens[h]
  {
    hide MintAccess, MintRefresh;
  }

  /** The three ways a refresh goes, in terms of the row alone. */
  lemma RefreshLeaves(s: State, token: string, cookie: Option<string>, renewal: Renewal)
    ensures var after := DoRefresh(s, token, cookie, renewal, s.clock).0.tokens;
            after ==
            if token in s.tokens && !s.tokens[token].revoked && s.clock <= s.tokens[token].expiresAt
               && s.tokens[token].user in s.users then
              Rotate(PutOnBlacklist(s, cookie, s.clock), token, renewal, s.clock).tokens
            else if token in s.tokens && s.tokens[token].revoked
                    && (s.tokens[token].lastUsed.Some? ==>
                          s.clock - s.tokens[token].lastUsed.value > REFRESH_REUSE_GRACE) then
              RevokeFamily(s.tokens, s.tokens[token].family)
            else
              s.tokens
  {
    hide BlacklistIfValid, Decode, HasUnrevoked, Rotate, RevokeFamily;
  }

  lemma RefreshFollows(s: State, token: string, cookie: Option<string>, renewal: Renewal, h: string)
    requires h in s.tokens && h != renewal.refresh
    ensures Follows(s, Refresh(s.clock, token, cookie, renewal), h,
                    DoRefresh(s, token, cookie, renewal, s.clock).0.tokens)
  {
    RefreshLeaves(s, token, cookie, renewal);
    if token in s.tokens { RotatingSpends(PutOnBlacklist(s, cookie, s.clock), token, renewal, h); }
    hide BlacklistIfValid, Decode, DoRefresh, Rotate;
  }

  lemma LogoutRevokes(s: State, refresh: Option<string>, cookie: Option<string>, h: string)
    requires h in s.tokens
    ensures var after := DoLogout(s, refresh, cookie, s.clock).tokens;
            h in after && after[h] == if refresh == Some(h) then s.tokens[h].(revoked := true) else s.tokens[h]
  {
    hide BlacklistIfValid, Decode;
  }

  lemma LogoutFollows(s: State, refresh: Option<string>, cookie: Option<string>, h: string)
    requires h in s.tokens
    ensures Follows(s, Logout(s.clock, refresh, cookie), h, DoLogout(s, refresh, cookie, s.clock).tokens)
  {
    LogoutRevokes(s, refresh, cookie, h);
    hide DoLogout;
  }

  lemma LogoutAllFollows(s: State, user: UserId, cookie: Option<string>, h: string)
    requires h in s.tokens
    ensures Follows(s, LogoutAll(s.clock, user, cookie), h, DoLogoutAll(s, user, cookie, s.clock).0.tokens)
  {
    hide BlacklistIfValid, Decode, ActiveSessions;
  }

  lemma ResetFollows(s: State, mailed: string, password: string, h: string)
    requires h in s.tokens
    ensures Follows(s, ResetPassword(s.clock, mailed, password), h,
                    DoResetPassword(s, mailed, password, s.clock).0.tokens)
  {
    hide Delete;
  }

  lemma ChangePasswordFollows(
    s: State, user: UserId, current: string, password: string, refresh: Option<string>, cookie: Option<string>,
    h: string)
    requires h in s.tokens
    ensures Follows(s, ChangePassword(s.clock, user, current, password, refresh, cookie), h,
                    DoChangePassword(s, user, current, password, refresh, cookie, s.clock).0.tokens)
  {
    if user in s.users {
      LogoutRevokes(s.(users := s.users[user := s.users[user].(password := Some(password))]), refresh, cookie, h);
    }
    hide DoLogout;
  }

  lemma DeleteProfileFollows(s: State, user: UserId, refresh: Option<string>, cookie: Option<string>, h: string)
    requires h in s.tokens
    ensures Follows(s, DeleteProfile(s.clock, user, refresh, cookie), h,
                    DoDeleteProfile(s, user, refresh, cookie, s.clock).tokens)
  {
    var dropped := DropUser(s, user);
    if h in dropped.tokens {
      LogoutRevokes(dropped, refresh, cookie, h);
    } else {
      LogoutAddsNothing(dropped, refresh, cookie);
    }
    hide DoLogout;
  }

  lemma LogoutAddsNothing(s: State, refresh: Option<string>, cookie: Option<string>)
    ensures DoLogout(s, refresh, cookie, s.clock).tokens.Keys == s.tokens.Keys
  {
    hide BlacklistIfValid, Decode;
  }

  lemma MailFollows(s: State, c: Call, h: string)
    requires OnlyMails(c) && h in s.tokens
    ensures Follows(s, c, h, Next(s, c).tokens)
  {
    Framed(s, c);
    hide Next;
  }

  /**
   The fate of every stored row in every call: it goes exactly with its account or
   with a password reset; refreshing spends it, marking when; logging out with it,
   logging out everywhere while it is active, or replaying a spent token of its family
   revokes it; otherwise not a field of it changes.
   */
  lemma RowsFollowCalls(s: State, c: Call, h: string)
    requires Inv(s) && Enabled(s, c) && h in s.tokens
    ensures Follows(s, c, h, Next(s, c).tokens)
  {
    StoredAreSigned(s, h);
    FollowsAt(s, c, h, Next(s, c).tokens);
    hide Inv, Follows, Next;
    if OpensSessions(c) {
      OpeningCallsFollow(s, c, h);
    } else if OnlyMails(c) {
      MailFollows(s, c, h);
    } else {
      EndingCallsFollow(s, c, h);
    }
  }

  lemma OpeningCallsFollow(s: State, c: Call, h: string)
    requires Enabled(s, c) && h in s.tokens && h in s.signed && OpensSessions(c)
    ensures Follows(At(s, c.at), c, h, Next(s, c).tokens)
  {
    var t := At(s, c.at);
    hide Follows, DoVerifyEmail, DoSignIn, DoGoogleCallback, DoRefresh;
    match c
    case VerifyEmail(_, mailed, grant, commits) => VerifyEmailFollows(t, mailed, grant, commits, h);
    case SignIn(_, email, password, grant) => SignInFollows(t, email, password, grant, h);
    case GoogleCallback(_, subject, email, newUser, grant) => GoogleFollows(t, subject, email, newUser, grant, h);
    case Refresh(_, token, cookie, renewal) => RefreshFollows(t, token, cookie, renewal, h);
  }

  lemma EndingCallsFollow(s: State, c: Call, h: string)
    requires h in s.tokens && !OpensSessions(c) && !OnlyMails(c)
    ensures Follows(At(s, c.at), c, h, Next(s, c).tokens)
  {
    var t := At(s, c.at);
    hide Follows, DoLogout, DoLogoutAll, DoResetPassword, DoChangePassword, DoDeleteProfile;
    match c
    case Logout(_, refresh, cookie) => LogoutFollows(t, refresh, cookie, h);
    case LogoutAll(_, user, cookie) => LogoutAllFollows(t, user, cookie, h);
    case ResetPassword(_, mailed, password) => ResetFollows(t, mailed, password, h);
    case ChangePassword(_, user, current, password, refresh, cookie) =>
      ChangePasswordFollows(t, user, current, password, refresh, cookie, h);
    case DeleteProfile(_, user, refresh, cookie) => DeleteProfileFollows(t, user, refresh, cookie, h);
  }

  lemma FollowsAt(s: State, c: Call, h: string, after: Tokens)
    requires h in s.tokens
    ensures Follows(At(s, c.at), c, h, after) == Follows(s, c, h, after)
  {}

  // ----- New rows -----

  predicate HandsOut(r: Reply, h: string) {
    (r.Opened? || r.Rotated?) && r.refresh == h
  }

  /** The row is new exactly if the reply hands its token out, and then it is that of a fresh session. */
  ghost predicate Granted(s: State, c: Call, h: string, after: Tokens, r: Reply)
    requires h !in s.tokens
  {
    && (h in after <==> HandsOut(r, h))
    && (h in after ==>
          && (c.VerifyEmail? || c.SignIn? || c.GoogleCallback? || (c.Refresh? && c.token in s.tokens))
          && h == (if c.Refresh? then c.renewal.refresh else c.grant.refresh)
          && var family := if c.Refresh? then s.tokens[c.token].family else c.grant.family;
             after[h] == Row(r.user, family, c.at + REFRESH_TOKEN_LIFETIME, false, Some(c.at)))
  }

  lemma VerifyEmailGrants(s: State, mailed: string, grant: Grant, commits: bool, h: string)
    requires h !in s.tokens
    ensures var (t, r) := DoVerifyEmail(s, mailed, grant, commits, s.clock);
            Granted(s, VerifyEmail(s.clock, mailed, grant, commits), h, t.tokens, r)
  {
    hide Verification.Redeem, Verification.Lookup, MintAccess, MintRefresh;
  }

  lemma SignInGrants(s: State, email: string, password: string, grant: Grant, h: string)
    requires h !in s.tokens
    ensures var (t, r) := DoSignIn(s, email, password, grant, s.clock);
            Granted(s, SignIn(s.clock, email, password, grant), h, t.tokens, r)
  {
    hide FindUser, CredentialsPass, Lockout.Locked, Lockout.Incremented, Lockout.FailureCount, Delete;
    hide MintAccess, MintRefresh;
  }

  lemma GoogleGrants(s: State, subject: string, email: string, newUser: UserId, grant: Grant, h: string)
    requires h !in s.tokens
    ensures var (t, r) := DoGoogleCallback(s, subject, email, newUser, grant, s.clock);
            Granted(s, GoogleCallback(s.clock, subject, email, newUser, grant), h, t.tokens, r)
  {
    UpsertTouchesOnlyAccounts(s, subject, email, newUser);
    hide UpsertGoogleUser, MintAccess, MintRefresh;
  }

  lemma RotatingGrants(s: State, token: string, renewal: Renewal, h: string)
    requires token in s.tokens && h !in s.tokens
    ensures var after := Rotate(s, token, renewal, s.clock).tokens;
            && (h in after <==> h == renewal.refresh)
            && (h in after ==>
                  after[h] == Row(s.tokens[token].user, s.tokens[token].family, s.clock + REFRESH_TOKEN_LIFETIME,
                                  false, Some(s.clock)))
  {
    hide MintAccess, MintRefresh;
  }

  lemma RotatedIff(s: State, token: string, cookie: Option<string>, renewal: Renewal)
    ensures var r := DoRefresh(s, token, cookie, renewal, s.clock).1;
            && (r.Rotated? <==> && token in s.tokens && !s.tokens[token].revoked
                                && s.clock <= s.tokens[token].expiresAt && s.tokens[token].user in s.users)
            && (r.Rotated? ==> r == Rotated(s.tokens[token].user, renewal.refresh, renewal.access))
            && !r.Opened?
  {
    hide BlacklistIfValid, Decode, HasUnrevoked, Rotate, RevokeFamily;
  }

  lemma RefreshGrants(s: State, token: string, cookie: Option<string>, renewal: Renewal, h: string)
    requires h !in s.tokens
    ensures var (t, r) := DoRefresh(s, token, cookie, renewal, s.clock);
            Granted(s, Refresh(s.clock, token, cookie, renewal), h, t.tokens, r)
  {
    RefreshLeaves(s, token, cookie, renewal);
    RotatedIff(s, token, cookie, renewal);
    if token in s.tokens { RotatingGrants(PutOnBlacklist(s, cookie, s.clock), token, renewal, h); }
    hide BlacklistIfValid, Decode, DoRefresh, Rotate;
  }

  lemma OthersGrantNothing(s: State, c: Call, h: string)
    requires h !in s.tokens && !OpensSessions(c)
    ensures Granted(s, c, h, Next(s, c).tokens, ReplyTo(s, c))
  {
    var t := At(s, c.at);
    if OnlyMails(c) {
      Framed(s, c);
      MailRepliesGrantNothing(s, c);
      hide Next, ReplyTo;
    } else if c.Logout? {
      LogoutAddsNothing(t, c.refresh, c.cookie);
      hide DoLogout;
    } else if c.ChangePassword? {
      if c.user in s.users {
        LogoutAddsNothing(
          t.(users := t.users[c.user := t.users[c.user].(password := Some(c.password))]), c.refresh, c.cookie);
      }
      hide DoLogout;
    } else if c.DeleteProfile? {
      LogoutAddsNothing(DropUser(t, c.user), c.refresh, c.cookie);
      hide DoLogout;
    } else {
      hide BlacklistIfValid, Decode, ActiveSessions, Get, Delete;
    }
  }

  lemma MailRepliesGrantNothing(s: State, c: Call)
    requires OnlyMails(c)
    ensures !ReplyTo(s, c).Opened? && !ReplyTo(s, c).Rotated?
  {
    hide FindUser, EmailTaken, SendVerification, SetEx;
  }

  /** A row is added exactly when the reply hands out its token, with the full lifetime and marked as just used. */
  lemma RowsAreGranted(s: State, c: Call, h: string)
    requires h !in s.tokens
    ensures Granted(s, c, h, Next(s, c).tokens, ReplyTo(s, c))
  {
    var t := At(s, c.at);
    hide Granted, DoVerifyEmail, DoSignIn, DoGoogleCallback, DoRefresh;
    assert forall after, r :: Granted(t, c, h, after, r) == Granted(s, c, h, after, r) by { GrantedAt(s, c, h); }
    match c
    case VerifyEmail(_, mailed, grant, commits) => VerifyEmailGrants(t, mailed, grant, commits, h);
    case SignIn(_, email, password, grant) => SignInGrants(t, email, password, grant, h);
    case GoogleCallback(_, subject, email, newUser, grant) => GoogleGrants(t, subject, email, newUser, grant, h);
    case Refresh(_, token, cookie, renewal) => RefreshGrants(t, token, cookie, renewal, h);
    case _ => OthersGrantNothing(s, c, h);
  }

  lemma GrantedAt(s: State, c: Call, h: string)
    requires h !in s.tokens
    ensures forall after, r :: Granted(At(s, c.at), c, h, after, r) == Granted(s, c, h, after, r)
  {}

  // ----- Spent and logged-out tokens over whole runs -----

  /** The token was signed, its row is revoked and, while stored, is this one. */
  ghost predicate Retired(s: State, h: string, row: Row) {
    h in s.signed && row.revoked && (h in s.tokens ==> s.tokens[h] == row)
  }

  lemma RetiredStep(s: State, c: Call, h: string, row: Row)
    requires Inv(s) && Enabled(s, c) && Retired(s, h, row)
    ensures Retired(Next(s, c), h, row)
    ensures c.Refresh? && c.token == h ==> !ReplyTo(s, c).Rotated?
  {
    SignedGrows(s, c);
    if c.Refresh? { RotatedIff(At(s, c.at), c.token, c.cookie, c.renewal); }
    assert c.Refresh? && c.token == h ==> !ReplyTo(s, c).Rotated? by { hide DoRefresh; }
    hide Inv, Next, ReplyTo;
    if h in s.tokens {
      RowsFollowCalls(s, c, h);
    } else {
      RowsAreGranted(s, c, h);
    }
  }

  lemma {:induction false} RetiredRun(s: State, calls: seq<Call>, h: string, row: Row)
    requires Inv(s) && Runnable(s, calls) && Retired(s, h, row)
    ensures Retired(Run(s, calls), h, row)
    ensures forall i :: 0 <= i < |calls| && calls[i].Refresh? && calls[i].token == h ==> !Replies(s, calls)[i].Rotated?
    decreases |calls|
  {
    if calls != [] {
      var c := calls[0];
      hide Inv, Next, ReplyTo, Retired, Enabled;
      RetiredStep(s, c, h, row);
      CallKeepsInv(s, c);
      var later := Replies(Next(s, c), calls[1..]);
      RetiredRun(Next(s, c), calls[1..], h, row);
      forall i | 0 <= i < |calls| && calls[i].Refresh? && calls[i].token == h
        ensures !Replies(s, calls)[i].Rotated?
      {
        if i > 0 { assert calls[1..][i - 1] == calls[i] && Replies(s, calls)[i] == later[i - 1]; }
      }
    }
  }

  lemma ReplayRefused(s: State, d: Call)
    requires d.Refresh? && d.token in s.tokens && s.tokens[d.token].revoked && s.tokens[d.token].lastUsed.Some?
    requires d.at - s.tokens[d.token].lastUsed.value <= REFRESH_REUSE_GRACE
    ensures Next(s, d) == s.(clock := d.at) && ReplyTo(s, d) == Failed(InvalidRefreshToken)
  {}

  lemma ReplayDetected(s: State, d: Call)
    requires d.Refresh? && d.token in s.tokens && s.tokens[d.token].revoked && s.tokens[d.token].lastUsed.Some?
    requires d.at - s.tokens[d.token].lastUsed.value > REFRESH_REUSE_GRACE
    ensures ReplyTo(s, d).ReuseDetected? && ReplyTo(s, d).family == s.tokens[d.token].family
  {}

  lemma ReplayKillsFamily(s: State, d: Call)
    requires Inv(s) && Enabled(s, d)
    requires d.Refresh? && d.token in s.tokens && s.tokens[d.token].revoked && s.tokens[d.token].lastUsed.Some?
    requires d.at - s.tokens[d.token].lastUsed.value > REFRESH_REUSE_GRACE
    ensures ReplyTo(s, d).ReuseDetected? && ReplyTo(s, d).family == s.tokens[d.token].family
    ensures var after := Next(s, d).tokens;
            forall h :: h in after && after[h].family == s.tokens[d.token].family ==> after[h].revoked
  {
    ReplayDetected(s, d);
    hide Inv, Next, ReplyTo;
    var after := Next(s, d).tokens;
    forall h | h in after && after[h].family == s.tokens[d.token].family
      ensures after[h].revoked
    {
      if h in s.tokens { RowsFollowCalls(s, d, h); } else { RowsAreGranted(s, d, h); }
    }
  }

  /**
   A refresh that rotated a token settles, for any continuation, how that token is
   answered while its row is stored: within the grace period from the rotation a
   replay is refused and changes nothing but the clock; later it counts as reuse and
   leaves no unrevoked row in the family.
   */
  lemma SpentTokenReplayed(s: State, c: Call, calls: seq<Call>, d: Call)
    requires Reachable(s) && Enabled(s, c) && c.Refresh? && ReplyTo(s, c).Rotated?
    requires Runnable(Next(s, c), calls) && Enabled(Run(Next(s, c), calls), d)
    requires d.Refresh? && d.token == c.token && d.token in Run(Next(s, c), calls).tokens
    ensures d.at - c.at <= REFRESH_REUSE_GRACE ==>
              var end := Run(Next(s, c), calls);
              Next(end, d) == end.(clock := d.at) && ReplyTo(end, d) == Failed(InvalidRefreshToken)
    ensures d.at - c.at > REFRESH_REUSE_GRACE ==>
              var end := Run(Next(s, c), calls);
              var f := s.tokens[c.token].family;
              && ReplyTo(end, d).ReuseDetected? && ReplyTo(end, d).family == f
              && forall h :: h in Next(end, d).tokens && Next(end, d).tokens[h].family == f ==>
                   Next(end, d).tokens[h].revoked
  {
    ReachableSound(s);
    CallKeepsInv(s, c);
    SignedGrows(s, c);
    RotatedIff(At(s, c.at), c.token, c.cookie, c.renewal);
    assert c.token in s.tokens && Spends(s, c, c.token) by { hide DoRefresh, Inv; }
    StoredAreSigned(s, c.token);
    RowsFollowCalls(s, c, c.token);
    var row := s.tokens[c.token].(revoked := true, lastUsed := Some(c.at));
    hide Inv, Next, ReplyTo, Run, Runnable;
    RunKeepsInv(Next(s, c), calls);
    RetiredRun(Next(s, c), calls, c.token, row);
    var end := Run(Next(s, c), calls);
    if d.at - c.at <= REFRESH_REUSE_GRACE {
      ReplayRefused(end, d);
    } else {
      ReplayKillsFamily(end, d);
    }
  }

  /** The call logs the token out: by logout, account deletion, or a password change that went through. */
  ghost predicate EndsToken(s: State, c: Call, h: string) {
    && (c.Logout? || c.DeleteProfile? || (c.ChangePassword? && ReplyTo(s, c) == Done))
    && c.refresh == Some(h)
  }

  lemma ChangeDoneIff(s: State, c: Call)
    requires c.ChangePassword?
    ensures ReplyTo(s, c) == Done <==> c.user in s.users && s.users[c.user].password == Some(c.current)
  {
    hide DoLogout;
  }

  /** A refresh token that a call logged out is never rotated again, in any continuation. */
  lemma LoggedOutForGood(s: State, c: Call, calls: seq<Call>, h: string)
    requires Reachable(s) && Enabled(s, c) && h in s.tokens && EndsToken(s, c, h)
    requires Runnable(Next(s, c), calls)
    ensures forall i :: 0 <= i < |calls| && calls[i].Refresh? && calls[i].token == h ==>
              !Replies(Next(s, c), calls)[i].Rotated?
  {
    ReachableSound(s);
    CallKeepsInv(s, c);
    SignedGrows(s, c);
    StoredAreSigned(s, h);
    if c.ChangePassword? { ChangeDoneIff(s, c); }
    hide Inv, Next, ReplyTo;
    RowsFollowCalls(s, c, h);
    RetiredRun(Next(s, c), calls, h, s.tokens[h].(revoked := true));
  }

  /**
   Logout and a password change that went through end that one session and no other:
   every user's active sessions are, at every instant, those before without it.
   */
  lemma LogoutEndsOneSession(s: State, c: Call, h: string, user: UserId, now: int)
    requires Reachable(s) && Enabled(s, c) && h in s.tokens && EndsToken(s, c, h) && !c.DeleteProfile?
    ensures Next(s, c).tokens == s.tokens[h := s.tokens[h].(revoked := true)]
    ensures ActiveSessions(Next(s, c).tokens, user, now) == ActiveSessions(s.tokens, user, now) - {h}
  {
    ReachableSound(s);
    hide Inv, Next, ReplyTo, Enabled, EndsToken;
    hide ActiveSessions;
    var after := Next(s, c).tokens;
    forall k
      ensures k in after <==> k in s.tokens
      ensures k in s.tokens ==> after[k] == if k == h then s.tokens[k].(revoked := true) else s.tokens[k]
    {
      RowAfterLogout(s, c, h, k);
    }
    assert after == s.tokens[h := s.tokens[h].(revoked := true)];
    OneRevoked(s.tokens, h, user, now);
  }

  lemma OneRevoked(tokens: Tokens, h: string, user: UserId, now: int)
    requires h in tokens
    ensures ActiveSessions(tokens[h := tokens[h].(revoked := true)], user, now)
            == ActiveSessions(tokens, user, now) - {h}
  {}

  lemma RowAfterLogout(s: State, c: Call, h: string, k: string)
    requires Inv(s) && Enabled(s, c) && h in s.tokens && EndsToken(s, c, h) && !c.DeleteProfile?
    ensures k in Next(s, c).tokens <==> k in s.tokens
    ensures k in s.tokens ==>
              Next(s, c).tokens[k] == if k == h then s.tokens[k].(revoked := true) else s.tokens[k]
  {
    if c.ChangePassword? { ChangeDoneIff(s, c); }
    NoGrant(s, c);
    hide Inv, Next, ReplyTo;
    if k in s.tokens { RowsFollowCalls(s, c, k); } else { RowsAreGranted(s, c, k); }
  }

  lemma NoGrant(s: State, c: Call)
    requires c.Logout? || c.ChangePassword?
    ensures !ReplyTo(s, c).Opened? && !ReplyTo(s, c).Rotated?
  {
    hide DoLogout;
  }
}
