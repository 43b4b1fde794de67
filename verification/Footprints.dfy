/** Which parts of the state each service call can change. */
module Footprints {
  import opened Prelude
  import opened Redis
  import opened AccessTokens
  import opened Sessions
  import opened SessionInvariants
  import Lockout
  import Verification

  predicate OpensSessions(c: Call) {
    c.VerifyEmail? || c.SignIn? || c.GoogleCallback? || c.Refresh?
  }

  predicate OnlyMails(c: Call) {
    c.SignUp? || c.ResendVerification? || c.RequestReset? || c.UpdateProfile?
  }

  predicate MayBlacklist(c: Call) {
    c.Refresh? || c.Logout? || c.LogoutAll? || c.ChangePassword? || c.DeleteProfile?
  }

  predicate Grows(before: Signed, after: Signed) {
    forall raw :: raw in before ==> raw in after && after[raw] == before[raw]
  }

  /** What the call leaves as it was between the two states. */
  ghost predicate Frame(s: State, c: Call, t: State) {
    && t.clock == s.clock
    && (c.SignIn? || t.counters == s.counters)
    && (c.SignUp? || c.ResendVerification? || c.VerifyEmail? || t.index == s.index)
    && (c.RequestReset? || c.ResetPassword? || t.resets == s.resets)
    && (MayBlacklist(c) || t.blacklist == s.blacklist)
    && (OpensSessions(c) || (t.signed == s.signed && t.chains == s.chains))
    && (OnlyMails(c) ==> t.tokens == s.tokens)
    && (c.GoogleCallback? || c.DeleteProfile? || t.links == s.links)
    && s.everMailed <= t.everMailed && s.everUsers <= t.everUsers
  }

  lemma SignUpFrames(s: State, email: string, password: string, newUser: UserId, mailed: string)
    ensures Frame(s, SignUp(s.clock, email, password, newUser, mailed),
                  DoSignUp(s, email, password, newUser, mailed, s.clock).0)
  {
    hide FindUser, Verification.Issue;
  }

  lemma ResendVerificationFrames(s: State, email: string, mailed: string)
    ensures Frame(s, ResendVerification(s.clock, email, mailed), DoResend(s, email, mailed, s.clock).0)
  {
    var user := FindUser(s.users, email);
    if user.Some? { SendingFrames(s, user.value, mailed); }
    hide FindUser, SendVerification;
  }

  lemma SendingFrames(s: State, user: UserId, mailed: string)
    ensures var t := SendVerification(s, user, mailed, s.clock);
            t == s.(index := t.index, everMailed := s.everMailed + {mailed})
  {
    hide Verification.Issue;
  }

  lemma VerifyEmailFrames(s: State, mailed: string, grant: Grant, commits: bool)
    ensures Frame(s, VerifyEmail(s.clock, mailed, grant, commits),
                  DoVerifyEmail(s, mailed, grant, commits, s.clock).0)
  {
    hide Verification.Redeem, Verification.Lookup, MintAccess, MintRefresh;
  }

  lemma OpeningTouches(s: State, user: UserId, grant: Grant)
    ensures var t := OpenSession(s, user, grant, s.clock);
            t == s.(tokens := t.tokens, signed := t.signed, chains := t.chains)
  {}

  lemma SignInFrames(s: State, email: string, password: string, grant: Grant)
    ensures Frame(s, SignIn(s.clock, email, password, grant), DoSignIn(s, email, password, grant, s.clock).0)
  {
    if CredentialsPass(s.users, email, password) {
      OpeningTouches(s.(counters := Delete(s.counters, email)), FindUser(s.users, email).value, grant);
    }
    hide FindUser, CredentialsPass, Delete, OpenSession;
    hide Lockout.Locked, Lockout.Incremented, Lockout.FailureCount;
  }

  lemma GoogleCallbackFrames(s: State, subject: string, email: string, newUser: UserId, grant: Grant)
    ensures Frame(s, GoogleCallback(s.clock, subject, email, newUser, grant),
                  DoGoogleCallback(s, subject, email, newUser, grant, s.clock).0)
  {
    UpsertTouchesOnlyAccounts(s, subject, email, newUser);
    hide UpsertGoogleUser, MintAccess, MintRefresh;
  }

  lemma RefreshFrames(s: State, token: string, cookie: Option<string>, renewal: Renewal)
    ensures Frame(s, Refresh(s.clock, token, cookie, renewal), DoRefresh(s, token, cookie, renewal, s.clock).0)
  {
    hide RevokeFamily, BlacklistIfValid, HasUnrevoked, Decode, MintAccess, MintRefresh;
  }

  lemma LogoutFrames(s: State, refresh: Option<string>, cookie: Option<string>)
    ensures Frame(s, Logout(s.clock, refresh, cookie), DoLogout(s, refresh, cookie, s.clock))
  {
    hide BlacklistIfValid, Decode;
  }

  lemma LogoutAllFrames(s: State, user: UserId, cookie: Option<string>)
    ensures Frame(s, LogoutAll(s.clock, user, cookie), DoLogoutAll(s, user, cookie, s.clock).0)
  {
    hide RevokeActive, BlacklistIfValid, ActiveSessions, Decode;
  }

  lemma RequestResetFrames(s: State, email: string, mailed: string)
    ensures Frame(s, RequestReset(s.clock, email, mailed), DoRequestReset(s, email, mailed, s.clock).0)
  {
    hide FindUser, SetEx;
  }

  lemma ResetPasswordFrames(s: State, mailed: string, password: string)
    ensures Frame(s, ResetPassword(s.clock, mailed, password), DoResetPassword(s, mailed, password, s.clock).0)
  {
    hide WithoutUser, Get, Delete;
  }

  lemma ChangePasswordFrames(
    s: State, user: UserId, current: string, password: string, refresh: Option<string>, cookie: Option<string>)
    ensures Frame(s, ChangePassword(s.clock, user, current, password, refresh, cookie),
                  DoChangePassword(s, user, current, password, refresh, cookie, s.clock).0)
  {
    if user in s.users {
      LogoutFrames(s.(users := s.users[user := s.users[user].(password := Some(password))]), refresh, cookie);
    }
    hide DoLogout;
  }

  lemma UpdateProfileFrames(s: State, user: UserId, newEmail: Option<string>)
    ensures Frame(s, UpdateProfile(s.clock, user, newEmail), DoUpdateProfile(s, user, newEmail).0)
  {
    hide EmailTaken;
  }

  lemma DeleteProfileFrames(s: State, user: UserId, refresh: Option<string>, cookie: Option<string>)
    ensures Frame(s, DeleteProfile(s.clock, user, refresh, cookie),
                  DoDeleteProfile(s, user, refresh, cookie, s.clock))
  {
    hide WithoutUser, BlacklistIfValid, Decode;
  }

  /** Every call keeps to its part of the state. */
  lemma Framed(s: State, c: Call)
    ensures Frame(At(s, c.at), c, Next(s, c))
    ensures Next(s, c).clock == c.at
  {
    var t := At(s, c.at);
    assert Frame(t, c, Next(s, c)) by {
      hide Frame;
      hide DoSignUp, DoResend, DoVerifyEmail, DoSignIn, DoGoogleCallback, DoRefresh, DoLogout, DoLogoutAll;
      hide DoRequestReset, DoResetPassword, DoChangePassword, DoUpdateProfile, DoDeleteProfile;
      match c
      case SignUp(_, email, password, newUser, mailed) => SignUpFrames(t, email, password, newUser, mailed);
      case ResendVerification(_, email, mailed) => ResendVerificationFrames(t, email, mailed);
      case VerifyEmail(_, mailed, grant, commits) => VerifyEmailFrames(t, mailed, grant, commits);
      case SignIn(_, email, password, grant) => SignInFrames(t, email, password, grant);
      case GoogleCallback(_, subject, email, newUser, grant) => GoogleCallbackFrames(t, subject, email, newUser, grant);
      case Refresh(_, token, cookie, renewal) => RefreshFrames(t, token, cookie, renewal);
      case Logout(_, refresh, cookie) => LogoutFrames(t, refresh, cookie);
      case LogoutAll(_, user, cookie) => LogoutAllFrames(t, user, cookie);
      case RequestReset(_, email, mailed) => RequestResetFrames(t, email, mailed);
      case ResetPassword(_, mailed, password) => ResetPasswordFrames(t, mailed, password);
      case ChangePassword(_, user, current, password, refresh, cookie) =>
        ChangePasswordFrames(t, user, current, password, refresh, cookie);
      case UpdateProfile(_, user, newEmail) => UpdateProfileFrames(t, user, newEmail);
      case DeleteProfile(_, user, refresh, cookie) => DeleteProfileFrames(t, user, refresh, cookie);
    }
    hide Next;
  }

  lemma GoogleGrows(s: State, subject: string, email: string, newUser: UserId, g: Grant)
    requires FreshGrant(s, g)
    ensures Grows(s.signed, DoGoogleCallback(s, subject, email, newUser, g, s.clock).0.signed)
  {
    UpsertTouchesOnlyAccounts(s, subject, email, newUser);
    hide UpsertGoogleUser;
  }

  lemma SignInGrows(s: State, email: string, password: string, g: Grant)
    requires FreshGrant(s, g)
    ensures Grows(s.signed, DoSignIn(s, email, password, g, s.clock).0.signed)
  {
    hide FindUser, CredentialsPass, Lockout.Locked, Lockout.Incremented, Lockout.FailureCount;
  }

  lemma VerifyEmailGrows(s: State, mailed: string, g: Grant, commits: bool)
    requires FreshGrant(s, g)
    ensures Grows(s.signed, DoVerifyEmail(s, mailed, g, commits, s.clock).0.signed)
  {
    hide Verification.Redeem, Verification.Lookup;
  }

  lemma RefreshGrows(s: State, token: string, cookie: Option<string>, renewal: Renewal)
    requires FreshRenewal(s, renewal)
    ensures Grows(s.signed, DoRefresh(s, token, cookie, renewal, s.clock).0.signed)
  {
    hide RevokeFamily, BlacklistIfValid, HasUnrevoked, Decode;
  }

  /** No token ever minted stops decoding to its claims. */
  lemma SignedGrows(s: State, c: Call)
    requires Enabled(s, c)
    ensures Grows(s.signed, Next(s, c).signed)
  {
    Framed(s, c);
    var t := At(s, c.at);
    hide Grows, Frame;
    hide DoVerifyEmail, DoSignIn, DoGoogleCallback, DoRefresh;
    match c
    case VerifyEmail(_, mailed, grant, commits) => VerifyEmailGrows(t, mailed, grant, commits);
    case SignIn(_, email, password, grant) => SignInGrows(t, email, password, grant);
    case GoogleCallback(_, subject, email, newUser, grant) => GoogleGrows(t, subject, email, newUser, grant);
    case Refresh(_, token, cookie, renewal) => RefreshGrows(t, token, cookie, renewal);
    case _ => OthersGrow(s, c);
  }

  lemma OthersGrow(s: State, c: Call)
    requires !OpensSessions(c)
    ensures Grows(s.signed, Next(s, c).signed)
  {
    Framed(s, c);
    hide Next;
  }
}
