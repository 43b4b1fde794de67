/** Ending sessions: what logout-all, password reset and blacklisting guarantee from then on. */
module LogoutTheorems {
  import opened Prelude
  import opened Redis
  import opened Settings
  import opened AccessTokens
  import opened Sessions
  import opened SessionInvariants
  import opened Footprints
  import opened SessionTheorems
  import Verification
  import Lockout

  /** The reply hands the user a pair of tokens. */
  predicate Grants(r: Reply, user: UserId) {
    (r.Opened? || r.Rotated?) && r.user == user
  }

  /** The user gains no unrevoked row and no signed token. */
  ghost predicate KeepsUser(tokens: Tokens, signed: Signed, after: State, user: UserId) {
    && (forall h :: h in after.tokens && after.tokens[h].user == user && !after.tokens[h].revoked ==>
          h in tokens && tokens[h] == after.tokens[h])
    && (forall raw :: raw in after.signed && after.signed[raw].sub == Some(user) ==>
          raw in signed && signed[raw] == after.signed[raw])
  }

  lemma OpeningKeepsOthers(s: State, owner: UserId, g: Grant, now: int, user: UserId)
    requires owner != user
    ensures KeepsUser(s.tokens, s.signed, OpenSession(s, owner, g, now), user)
  {}

  lemma LogoutKeepsUser(s: State, refresh: Option<string>, cookie: Option<string>, now: int, user: UserId)
    ensures KeepsUser(s.tokens, s.signed, DoLogout(s, refresh, cookie, now), user)
  {}

  lemma VerifyEmailKeepsUser(s: State, mailed: string, g: Grant, commits: bool, user: UserId)
    requires !Grants(DoVerifyEmail(s, mailed, g, commits, s.clock).1, user)
    ensures KeepsUser(s.tokens, s.signed, DoVerifyEmail(s, mailed, g, commits, s.clock).0, user)
  {
    var s' := s.(index := Verification.Redeem(s.index, mailed, s.clock));
    match Verification.Lookup(s.index, mailed, s.clock)
    case None =>
    case Some(u) =>
      if u in s.users && u != user {
        OpeningKeepsOthers(s'.(users := s.users[u := s.users[u].(verified := true)]), u, g, s.clock, user);
      }
  }

  lemma SignInKeepsUser(s: State, email: string, password: string, g: Grant, user: UserId)
    requires !Grants(DoSignIn(s, email, password, g, s.clock).1, user)
    ensures KeepsUser(s.tokens, s.signed, DoSignIn(s, email, password, g, s.clock).0, user)
  {
    if CredentialsPass(s.users, email, password) {
      var u := FindUser(s.users, email).value;
      if u != user {
        OpeningKeepsOthers(s.(counters := Delete(s.counters, email)), u, g, s.clock, user);
      }
    }
  }

  lemma GoogleKeepsUser(s: State, subject: string, email: string, newUser: UserId, g: Grant, user: UserId)
    requires !Grants(DoGoogleCallback(s, subject, email, newUser, g, s.clock).1, user)
    ensures KeepsUser(s.tokens, s.signed, DoGoogleCallback(s, subject, email, newUser, g, s.clock).0, user)
  {
    UpsertTouchesOnlyAccounts(s, subject, email, newUser);
    hide UpsertGoogleUser;
    var (s', u) := UpsertGoogleUser(s, subject, email, newUser);
    if u.Success? {
      OpeningKeepsOthers(s', u.value, g, s.clock, user);
    }
  }

  lemma RefreshKeepsUser(s: State, token: string, cookie: Option<string>, renewal: Renewal, user: UserId)
    requires !Grants(DoRefresh(s, token, cookie, renewal, s.clock).1, user)
    ensures KeepsUser(s.tokens, s.signed, DoRefresh(s, token, cookie, renewal, s.clock).0, user)
  {
    if token in s.tokens {
      if s.tokens[token].user != user {
        RotatingKeepsOthers(PutOnBlacklist(s, cookie, s.clock), token, renewal, s.clock, user);
      }
      FamilyRevocationKeepsUser(s, s.tokens[token].family, user);
    }
    hide KeepsUser, Rotate, RevokeFamily, BlacklistIfValid, HasUnrevoked;
    assert KeepsUser(s.tokens, s.signed, s, user) by { SameKeepsUser(s, user); }
  }

  lemma SameKeepsUser(s: State, user: UserId)
    ensures KeepsUser(s.tokens, s.signed, s, user)
  {}

  lemma RotatingKeepsOthers(s: State, token: string, renewal: Renewal, now: int, user: UserId)
    requires token in s.tokens && s.tokens[token].user != user
    ensures KeepsUser(s.tokens, s.signed, Rotate(s, token, renewal, now), user)
  {}

  lemma FamilyRevocationKeepsUser(s: State, f: Family, user: UserId)
    ensures KeepsUser(s.tokens, s.signed, s.(tokens := RevokeFamily(s.tokens, f)), user)
  {}

  lemma MailAndProfileKeepUser(s: State, c: Call, user: UserId)
    requires c.SignUp? || c.ResendVerification? || c.RequestReset? || c.UpdateProfile?
    ensures KeepsUser(s.tokens, s.signed, Next(s, c), user)
  {
    Framed(s, c);
    hide Next;
  }

  lemma LogoutAllKeepsUser(s: State, owner: UserId, cookie: Option<string>, user: UserId)
    ensures KeepsUser(s.tokens, s.signed, DoLogoutAll(s, owner, cookie, s.clock).0, user)
  {
    hide BlacklistIfValid, Decode, ActiveSessions;
  }

  lemma ResetKeepsUser(s: State, mailed: string, password: string, user: UserId)
    ensures KeepsUser(s.tokens, s.signed, DoResetPassword(s, mailed, password, s.clock).0, user)
  {}

  lemma ChangePasswordKeepsUser(
    s: State, owner: UserId, current: string, password: string, refresh: Option<string>, cookie: Option<string>,
    user: UserId)
    ensures KeepsUser(s.tokens, s.signed,
                      DoChangePassword(s, owner, current, password, refresh, cookie, s.clock).0, user)
  {
    if owner in s.users {
      LogoutKeepsUser(s.(users := s.users[owner := s.users[owner].(password := Some(password))]),
                      refresh, cookie, s.clock, user);
    }
    hide DoLogout;
  }

  lemma DeletionKeepsUser(s: State, owner: UserId, refresh: Option<string>, cookie: Option<string>, user: UserId)
    ensures KeepsUser(s.tokens, s.signed, DoDeleteProfile(s, owner, refresh, cookie, s.clock), user)
  {
    LogoutKeepsUser(DropUser(s, owner), refresh, cookie, s.clock, user);
    hide DoLogout;
  }

  /** Only a reply that hands a user tokens gives them an unrevoked row or a signed token. */
  lemma OnlyGrantsGrant(s: State, c: Call, user: UserId)
    requires !Grants(ReplyTo(s, c), user)
    ensures KeepsUser(s.tokens, s.signed, Next(s, c), user)
  {
    var t := At(s, c.at);
    hide KeepsUser;
    match c
    case VerifyEmail(_, mailed, grant, commits) => VerifyEmailKeepsUser(t, mailed, grant, commits, user);
    case SignIn(_, email, password, grant) => SignInKeepsUser(t, email, password, grant, user);
    case GoogleCallback(_, subject, email, newUser, grant) => GoogleKeepsUser(t, subject, email, newUser, grant, user);
    case Refresh(_, token, cookie, renewal) => RefreshKeepsUser(t, token, cookie, renewal, user);
    case SignUp(_, _, _, _, _) => MailAndProfileKeepUser(s, c, user);
    case ResendVerification(_, _, _) => MailAndProfileKeepUser(s, c, user);
    case RequestReset(_, _, _) => MailAndProfileKeepUser(s, c, user);
    case UpdateProfile(_, _, _) => MailAndProfileKeepUser(s, c, user);
    case Logout(_, refresh, cookie) => LogoutKeepsUser(t, refresh, cookie, c.at, user);
    case LogoutAll(_, owner, cookie) => LogoutAllKeepsUser(t, owner, cookie, user);
    case ResetPassword(_, mailed, password) => ResetKeepsUser(t, mailed, password, user);
    case ChangePassword(_, owner, current, password, refresh, cookie) =>
      ChangePasswordKeepsUser(t, owner, current, password, refresh, cookie, user);
    case DeleteProfile(_, owner, refresh, cookie) => DeletionKeepsUser(t, owner, refresh, cookie, user);
  }

  // ----- All sessions of a user ended -----

  ghost predicate RowsEndedAt(tokens: Tokens, user: UserId, t: int) {
    forall h :: h in tokens && tokens[h].user == user && !tokens[h].revoked ==> tokens[h].expiresAt <= t
  }

  /** The call ends all sessions of the user: logout-all, a completed reset, or deletion of the account. */
  predicate EndsSessions(s: State, c: Call, user: UserId) {
    || (c.LogoutAll? && c.user == user)
    || (c.ResetPassword? && user in s.users && Get(s.resets, c.mailed, c.at) == Some(user))
    || (c.DeleteProfile? && c.user == user)
  }

  /** Whatever rows the user has left unrevoked ran out by then, and no token of theirs was minted later. */
  ghost predicate EndedAt(s: State, user: UserId, t: int) {
    && RowsEndedAt(s.tokens, user, t)
    && (forall raw :: raw in s.signed && s.signed[raw].sub == Some(user) ==>
          s.signed[raw].exp.Some? && s.signed[raw].exp.value <= Seconds(t + Lifetime(s.signed[raw])))
  }

  /** No call of the run logs the user in afresh. */
  ghost predicate NoLogin(s: State, calls: seq<Call>, user: UserId) {
    forall i :: 0 <= i < |calls| ==> !(Replies(s, calls)[i].Opened? && Replies(s, calls)[i].user == user)
  }

  lemma EndedRefusesRefresh(s: State, c: Call, user: UserId, t: int)
    requires Enabled(s, c) && EndedAt(s, user, t) && t <= s.clock
    ensures ReplyTo(s, c).Rotated? ==> ReplyTo(s, c).user != user
  {}

  lemma EndedStep(s: State, c: Call, user: UserId, t: int)
    requires Enabled(s, c) && EndedAt(s, user, t) && t <= s.clock
    requires !(ReplyTo(s, c).Opened? && ReplyTo(s, c).user == user)
    ensures !Grants(ReplyTo(s, c), user)
    ensures EndedAt(Next(s, c), user, t) && t <= Next(s, c).clock
  {
    Framed(s, c);
    EndedRefusesRefresh(s, c, user, t);
    hide ReplyTo, Next;
    OnlyGrantsGrant(s, c, user);
  }

  lemma {:induction false} EndedRun(s: State, calls: seq<Call>, user: UserId, t: int)
    requires Runnable(s, calls) && EndedAt(s, user, t) && t <= s.clock && NoLogin(s, calls, user)
    ensures EndedAt(Run(s, calls), user, t)
    ensures forall i :: 0 <= i < |calls| ==> !Grants(Replies(s, calls)[i], user)
    decreases |calls|
  {
    if calls != [] {
      var c := calls[0];
      assert Replies(s, calls)[0] == ReplyTo(s, c);
      hide EndedAt, ReplyTo, Next, Grants;
      EndedStep(s, c, user, t);
      var later := Replies(Next(s, c), calls[1..]);
      assert forall i :: 0 <= i < |later| ==> later[i] == Replies(s, calls)[i + 1];
      EndedRun(Next(s, c), calls[1..], user, t);
    }
  }

  lemma DeletionEndsRows(s: State, c: Call)
    requires c.DeleteProfile?
    ensures RowsEndedAt(Next(s, c).tokens, c.user, c.at)
  {
    var dropped := DropUser(At(s, c.at), c.user);
    assert forall h :: h in dropped.tokens ==> dropped.tokens[h].user != c.user;
    var revoked := RevokeToken(dropped, c.refresh);
    assert forall h :: h in revoked.tokens ==> revoked.tokens[h].user != c.user;
    assert Next(s, c).tokens == revoked.tokens;
    hide DropUser, Next;
  }

  lemma LogoutAllEndsRows(s: State, user: UserId, cookie: Option<string>)
    ensures RowsEndedAt(DoLogoutAll(s, user, cookie, s.clock).0.tokens, user, s.clock)
  {
    hide BlacklistIfValid, Decode, ActiveSessions;
  }

  lemma ResetEndsRows(s: State, mailed: string, password: string, user: UserId)
    requires user in s.users && Get(s.resets, mailed, s.clock) == Some(user)
    ensures RowsEndedAt(DoResetPassword(s, mailed, password, s.clock).0.tokens, user, s.clock)
  {
    hide Get, Delete;
  }

  lemma CallEndsRows(s: State, c: Call, user: UserId)
    requires EndsSessions(s, c, user)
    ensures RowsEndedAt(Next(s, c).tokens, user, c.at)
  {
    hide RowsEndedAt, DoLogoutAll, DoResetPassword;
    if c.DeleteProfile? {
      DeletionEndsRows(s, c);
      hide Next;
    } else if c.LogoutAll? {
      LogoutAllEndsRows(At(s, c.at), c.user, c.cookie);
    } else {
      ResetEndsRows(At(s, c.at), c.mailed, c.password, user);
    }
  }

  lemma CallEndsSessions(s: State, c: Call, user: UserId)
    requires Inv(s) && Enabled(s, c) && EndsSessions(s, c, user)
    ensures EndedAt(Next(s, c), user, c.at)
  {
    assert LifetimesBounded(s.signed, c.at) by { hide FamiliesSound; }
    Framed(s, c);
    CallEndsRows(s, c, user);
    hide Inv, Next;
  }

  /**
   After logout-all, a completed password reset or the deletion of the account at
   some instant, and until the user logs in afresh: no refresh hands them tokens,
   the list of their sessions is empty, and from ACCESS_TOKEN_LIFETIME later on the
   gate refuses every access token ever minted for them. A refresh token decodes at
   the gate as well; what is said of those holds from REFRESH_TOKEN_LIFETIME on.
   */
  lemma SessionsStayEnded(s: State, c: Call, calls: seq<Call>, user: UserId)
    requires Reachable(s) && Enabled(s, c) && EndsSessions(s, c, user)
    requires Runnable(Next(s, c), calls)
    requires NoLogin(Next(s, c), calls, user)
    ensures forall i :: 0 <= i < |calls| ==> !Grants(Replies(Next(s, c), calls)[i], user)
    ensures forall now :: c.at <= now ==> ActiveSessions(Run(Next(s, c), calls).tokens, user, now) == {}
    ensures var end := Run(Next(s, c), calls);
            forall raw, now ::
              raw in end.signed && end.signed[raw].sub == Some(user) && c.at + Lifetime(end.signed[raw]) <= now ==>
                CurrentUser(Decode(end.signed, Some(raw)), end.blacklist, end.users.Keys, now, 0) == None
  {
    ReachableSound(s);
    CallEndsSessions(s, c, user);
    Framed(s, c);
    hide Inv, Next;
    EndedRun(Next(s, c), calls, user, c.at);
    var end := Run(Next(s, c), calls);
    hide Inv, Next, Run, Runnable, NoLogin, Replies, Grants;
    forall now | c.at <= now
      ensures ActiveSessions(end.tokens, user, now) == {}
    {}
  }

  /** Logout-all reports as many sessions as the user's list had, and leaves other users' lists alone. */
  lemma LogoutAllEmptiesTheList(s: State, c: Call, now: int)
    requires c.LogoutAll? && c.at <= now
    ensures ReplyTo(s, c) == SessionsRevoked(|ActiveSessions(s.tokens, c.user, c.at)|)
    ensures forall h :: h in ActiveSessions(s.tokens, c.user, c.at) <==>
              && h in s.tokens && s.tokens[h].user == c.user && !s.tokens[h].revoked
              && c.at < s.tokens[h].expiresAt
    ensures ActiveSessions(Next(s, c).tokens, c.user, now) == {}
    ensures forall other :: other != c.user ==>
              ActiveSessions(Next(s, c).tokens, other, now) == ActiveSessions(s.tokens, other, now)
  {
    forall other | other != c.user
      ensures ActiveSessions(Next(s, c).tokens, other, now) == ActiveSessions(s.tokens, other, now)
    {}
  }

  // ----- Presented access tokens -----

  /** The call goes on to blacklist the access token it came with. */
  ghost predicate BlacklistsCookie(s: State, c: Call) {
    || (c.Refresh? && ReplyTo(s, c).Rotated?)
    || c.Logout? || c.LogoutAll? || c.DeleteProfile?
    || (c.ChangePassword? && ReplyTo(s, c) == Done)
  }

  lemma RefreshBlacklists(s: State, token: string, cookie: Option<string>, renewal: Renewal)
    ensures var (t, reply) := DoRefresh(s, token, cookie, renewal, s.clock);
            t.blacklist == if reply.Rotated? then PutOnBlacklist(s, cookie, s.clock).blacklist else s.blacklist
  {
    hide BlacklistIfValid, Decode, RevokeFamily, HasUnrevoked, MintAccess, MintRefresh;
  }

  lemma LogoutBlacklists(s: State, refresh: Option<string>, cookie: Option<string>)
    ensures DoLogout(s, refresh, cookie, s.clock).blacklist == PutOnBlacklist(s, cookie, s.clock).blacklist
  {
    hide BlacklistIfValid, Decode;
  }

  lemma ChangePasswordBlacklists(
    s: State, user: UserId, current: string, password: string, refresh: Option<string>, cookie: Option<string>)
    ensures var (t, reply) := DoChangePassword(s, user, current, password, refresh, cookie, s.clock);
            t.blacklist == if reply == Done then PutOnBlacklist(s, cookie, s.clock).blacklist else s.blacklist
  {
    if user in s.users {
      LogoutBlacklists(s.(users := s.users[user := s.users[user].(password := Some(password))]), refresh, cookie);
    }
    hide BlacklistIfValid, Decode, DoLogout;
  }

  lemma BlacklistEffect(s: State, c: Call)
    ensures Next(s, c).blacklist ==
            if BlacklistsCookie(s, c) then BlacklistIfValid(s.blacklist, Decode(s.signed, c.cookie), c.at)
            else s.blacklist
  {
    var t := At(s, c.at);
    hide BlacklistIfValid, Decode, DoRefresh, DoLogout, DoChangePassword;
    match c
    case Refresh(_, token, cookie, renewal) => RefreshBlacklists(t, token, cookie, renewal);
    case Logout(_, refresh, cookie) => LogoutBlacklists(t, refresh, cookie);
    case LogoutAll(_, _, _) => hide RevokeActive, ActiveSessions;
    case ChangePassword(_, user, current, password, refresh, cookie) =>
      ChangePasswordBlacklists(t, user, current, password, refresh, cookie);
    case DeleteProfile(_, user, refresh, cookie) => LogoutBlacklists(DropUser(t, user), refresh, cookie);
    case _ =>
      Framed(s, c);
      hide Next, ReplyTo;
  }

  ghost predicate DeadToken(s: State, raw: string) {
    && raw in s.signed && s.signed[raw].jti.Some? && s.signed[raw].exp.Some?
    && Dead(s.signed[raw], s.blacklist, s.clock)
  }

  lemma DeadTokenStep(s: State, c: Call, raw: string)
    requires WellSigned(s.signed) && Enabled(s, c) && DeadToken(s, raw)
    ensures DeadToken(Next(s, c), raw)
  {
    SignedGrows(s, c);
    BlacklistEffect(s, c);
    Framed(s, c);
    hide Next, BlacklistsCookie;
    if BlacklistsCookie(s, c) {
      DeadStaysDead(s.signed, s.blacklist, s.signed[raw], c.cookie, s.clock, c.at);
    }
  }

  lemma {:induction false} DeadTokenRun(s: State, calls: seq<Call>, raw: string)
    requires Inv(s) && Runnable(s, calls) && DeadToken(s, raw)
    ensures DeadToken(Run(s, calls), raw) && s.clock <= Run(s, calls).clock
    decreases |calls|
  {
    if calls != [] {
      assert WellSigned(s.signed) by { hide FamiliesSound; }
      DeadTokenStep(s, calls[0], raw);
      CallKeepsInv(s, calls[0]);
      Framed(s, calls[0]);
      hide Inv, DeadToken, Next;
      DeadTokenRun(Next(s, calls[0]), calls[1..], raw);
    }
  }

  /**
   An access token that comes with a completed refresh, logout, logout-all,
   password change or account deletion is refused by the gate ever after,
   whatever calls follow.
   */
  lemma PresentedTokenRefused(s: State, c: Call, calls: seq<Call>, raw: string, now: int)
    requires Reachable(s) && Enabled(s, c) && Runnable(Next(s, c), calls)
    requires BlacklistsCookie(s, c) && c.cookie == Some(raw) && raw in s.signed
    requires var end := Run(Next(s, c), calls); end.clock <= now
    ensures var end := Run(Next(s, c), calls);
            CurrentUser(Decode(end.signed, Some(raw)), end.blacklist, end.users.Keys, now, 0) == None
  {
    ReachableSound(s);
    assert WellSigned(s.signed) by { hide FamiliesSound; }
    PresentedIsDead(s.signed, s.blacklist, raw, c.at);
    BlacklistEffect(s, c);
    SignedGrows(s, c);
    Framed(s, c);
    CallKeepsInv(s, c);
    hide Inv, Next, BlacklistsCookie, Run, Runnable;
    DeadTokenRun(Next(s, c), calls, raw);
  }

  // ----- Exactly which tokens are admitted -----

  /** Some call of the run comes with the token and blacklists it. */
  ghost predicate Presents(s: State, calls: seq<Call>, raw: string)
    decreases |calls|
  {
    calls != []
    && ((BlacklistsCookie(s, calls[0]) && calls[0].cookie == Some(raw))
        || Presents(Next(s, calls[0]), calls[1..], raw))
  }

  lemma WellSignedNow(s: State)
    requires Inv(s)
    ensures WellSigned(s.signed)
  {
    hide FamiliesSound;
  }

  lemma BlacklistingOthers(blacklist: Blacklist, signed: Signed, cookie: Option<string>, now: int, raw: string)
    requires WellSigned(signed) && raw !in blacklist && cookie != Some(raw)
    ensures raw !in BlacklistIfValid(blacklist, Decode(signed, cookie), now)
  {}

  lemma {:induction false} PresentedRun(s: State, calls: seq<Call>, raw: string)
    requires Inv(s) && Runnable(s, calls) && raw in s.signed && Presents(s, calls, raw)
    ensures DeadToken(Run(s, calls), raw) && Run(s, calls).signed[raw] == s.signed[raw]
    decreases |calls|
  {
    var c := calls[0];
    WellSignedNow(s);
    SignedGrows(s, c);
    BlacklistEffect(s, c);
    Framed(s, c);
    CallKeepsInv(s, c);
    if BlacklistsCookie(s, c) && c.cookie == Some(raw) {
      PresentedIsDead(s.signed, s.blacklist, raw, c.at);
      assert DeadToken(Next(s, c), raw) by { hide Inv, Next, BlacklistsCookie; }
      hide Inv, Next, BlacklistsCookie, DeadToken;
      DeadTokenRun(Next(s, c), calls[1..], raw);
      SignedRun(Next(s, c), calls[1..]);
    } else {
      hide Inv, Next, BlacklistsCookie, DeadToken;
      PresentedRun(Next(s, c), calls[1..], raw);
    }
  }

  lemma {:induction false} SignedRun(s: State, calls: seq<Call>)
    requires Runnable(s, calls)
    ensures Grows(s.signed, Run(s, calls).signed)
    decreases |calls|
  {
    if calls != [] {
      SignedGrows(s, calls[0]);
      hide Next;
      SignedRun(Next(s, calls[0]), calls[1..]);
    }
  }

  lemma {:induction false} UnpresentedRun(s: State, calls: seq<Call>, raw: string)
    requires Inv(s) && Runnable(s, calls) && raw in s.signed && raw !in s.blacklist && !Presents(s, calls, raw)
    ensures raw !in Run(s, calls).blacklist
    decreases |calls|
  {
    if calls != [] {
      var c := calls[0];
      WellSignedNow(s);
      SignedGrows(s, c);
      BlacklistEffect(s, c);
      CallKeepsInv(s, c);
      hide Inv, Next, BlacklistsCookie, BlacklistIfValid;
      if BlacklistsCookie(s, c) {
        BlacklistingOthers(s.blacklist, s.signed, c.cookie, c.at, raw);
      }
      UnpresentedRun(Next(s, c), calls[1..], raw);
    }
  }

  /**
   A token that is not blacklisted is admitted after any run if and only if no call
   of the run came with it and blacklisted it, its `exp` lies ahead and its user's
   account exists.
   */
  lemma AdmittedUntilPresented(s: State, calls: seq<Call>, raw: string, now: int)
    requires Inv(s) && Runnable(s, calls) && Run(s, calls).clock <= now
    requires raw in s.signed && s.signed[raw].sub.Some? && raw !in s.blacklist
    ensures s.signed[raw].exp.Some?
    ensures var end := Run(s, calls);
            var user := s.signed[raw].sub.value;
            CurrentUser(Decode(end.signed, Some(raw)), end.blacklist, end.users.Keys, now, 0)
            == if !Presents(s, calls, raw) && Seconds(now) < s.signed[raw].exp.value && user in end.users
               then Some(user) else None
  {
    WellSignedNow(s);
    SignedRun(s, calls);
    hide Inv, Run, Runnable, Presents;
    if Presents(s, calls, raw) {
      PresentedRun(s, calls, raw);
    } else {
      UnpresentedRun(s, calls, raw);
    }
  }

  /**
   So ending all sessions leaves every other signed token of the user at the gate, a
   refresh token among them, until it is presented to a call that blacklists it, runs
   out, or the account goes. SessionsStayEnded says by when all have run out.
   */
  lemma AdmittedAfterSessionsEnd(s: State, c: Call, calls: seq<Call>, user: UserId, raw: string, now: int)
    requires Reachable(s) && Enabled(s, c) && EndsSessions(s, c, user) && Runnable(Next(s, c), calls)
    requires raw in s.signed && s.signed[raw].sub == Some(user) && raw !in s.blacklist
    requires Run(Next(s, c), calls).clock <= now
    ensures s.signed[raw].exp.Some?
    ensures var end := Run(Next(s, c), calls);
            var presented := (BlacklistsCookie(s, c) && c.cookie == Some(raw)) || Presents(Next(s, c), calls, raw);
            CurrentUser(Decode(end.signed, Some(raw)), end.blacklist, end.users.Keys, now, 0)
            == if !presented && Seconds(now) < s.signed[raw].exp.value && user in end.users then Some(user) else None
  {
    var all := [c] + calls;
    assert all[1..] == calls;
    assert Runnable(s, all) && Run(s, all) == Run(Next(s, c), calls);
    assert Presents(s, all, raw) <==>
        (BlacklistsCookie(s, c) && c.cookie == Some(raw)) || Presents(Next(s, c), calls, raw);
    ReachableSound(s);
    hide Inv, Next, BlacklistsCookie, Run, Runnable, Presents;
    AdmittedUntilPresented(s, all, raw, now);
  }
}
