/** What a pair of tokens is good for, from the moment it is handed out. */
module GrantTheorems {
  import opened Prelude
  import opened Redis
  import opened Settings
  import opened AccessTokens
  import opened Sessions
  import opened SessionInvariants
  import opened Footprints
  import opened LogoutTheorems
  import Lockout
  import Verification

  // ----- The blacklist names only tokens that exist -----

  ghost predicate BlacklistKnown(blacklist: Blacklist, signed: Signed) {
    blacklist.Keys <= signed.Keys
  }

  lemma BlacklistingStaysKnown(blacklist: Blacklist, signed: Signed, cookie: Option<string>, now: int)
    requires WellSigned(signed) && BlacklistKnown(blacklist, signed)
    ensures BlacklistKnown(BlacklistIfValid(blacklist, Decode(signed, cookie), now), signed)
  {}

  lemma {:induction false} BlacklistKnownRun(s: State, calls: seq<Call>)
    requires Inv(s) && Runnable(s, calls) && BlacklistKnown(s.blacklist, s.signed)
    ensures BlacklistKnown(Run(s, calls).blacklist, Run(s, calls).signed)
    decreases |calls|
  {
    if calls != [] {
      var c := calls[0];
      assert WellSigned(s.signed) by { hide FamiliesSound; }
      CallKeepsInv(s, c);
      SignedGrows(s, c);
      BlacklistEffect(s, c);
      hide Inv, Next, BlacklistsCookie, WellSigned, BlacklistIfValid, Decode;
      if BlacklistsCookie(s, c) { BlacklistingStaysKnown(s.blacklist, s.signed, c.cookie, c.at); }
      BlacklistKnownRun(Next(s, c), calls[1..]);
    }
  }

  lemma ReachableBlacklistKnown(s: State)
    requires Reachable(s)
    ensures BlacklistKnown(s.blacklist, s.signed)
  {
    var calls: seq<Call> :| Runnable(INITIAL, calls) && s == Run(INITIAL, calls);
    InitialSound();
    hide Inv;
    BlacklistKnownRun(INITIAL, calls);
  }

  // ----- A fresh pair of tokens -----

  /** The user's pair of tokens as minted at the state's instant, not revoked and not blacklisted. */
  ghost predicate FreshPair(s: State, user: UserId, refresh: string, access: string) {
    && user in s.users
    && refresh in s.tokens && s.tokens[refresh].user == user && !s.tokens[refresh].revoked
    && s.tokens[refresh].expiresAt == s.clock + REFRESH_TOKEN_LIFETIME
    && refresh in s.signed
    && s.signed[refresh] == Claims(Some(refresh), Some(user), Some(Seconds(s.clock + REFRESH_TOKEN_LIFETIME)), true)
    && access in s.signed && access != "" && access !in s.blacklist
    && s.signed[access] == Claims(Some(access), Some(user), Some(Seconds(s.clock + ACCESS_TOKEN_LIFETIME)), false)
  }

  lemma OpeningMakesPair(s: State, user: UserId, g: Grant)
    requires user in s.users && FreshGrant(s, g) && BlacklistKnown(s.blacklist, s.signed)
    ensures FreshPair(OpenSession(s, user, g, s.clock), user, g.refresh, g.access)
  {}

  lemma VerifyEmailMakesPair(s: State, mailed: string, g: Grant, commits: bool)
    requires FreshGrant(s, g) && BlacklistKnown(s.blacklist, s.signed)
    ensures var (after, r) := DoVerifyEmail(s, mailed, g, commits, s.clock);
            r.Opened? ==> FreshPair(after, r.user, r.refresh, r.access)
  {
    var user := Verification.Lookup(s.index, mailed, s.clock);
    if user.Some? && user.value in s.users {
      var u := user.value;
      var redeemed := s.(index := Verification.Redeem(s.index, mailed, s.clock));
      OpeningMakesPair(redeemed.(users := s.users[u := s.users[u].(verified := true)]), u, g);
    }
    hide OpenSession, FreshPair, Verification.Redeem, Verification.Lookup;
  }

  lemma SignInMakesPair(s: State, email: string, password: string, g: Grant)
    requires FreshGrant(s, g) && BlacklistKnown(s.blacklist, s.signed)
    ensures var (after, r) := DoSignIn(s, email, password, g, s.clock);
            r.Opened? ==> FreshPair(after, r.user, r.refresh, r.access)
  {
    if CredentialsPass(s.users, email, password) {
      OpeningMakesPair(s.(counters := Delete(s.counters, email)), FindUser(s.users, email).value, g);
    }
    hide OpenSession, FreshPair, Lockout.Locked, Lockout.Incremented, Lockout.FailureCount;
  }

  lemma GoogleMakesPair(s: State, subject: string, email: string, newUser: UserId, g: Grant)
    requires AccountsSound(s.users, s.links, s.everUsers) && RowsOwned(s.tokens, s.users) && newUser !in s.everUsers
    requires FreshGrant(s, g) && BlacklistKnown(s.blacklist, s.signed)
    ensures var (after, r) := DoGoogleCallback(s, subject, email, newUser, g, s.clock);
            r.Opened? ==> FreshPair(after, r.user, r.refresh, r.access)
  {
    UpsertTouchesOnlyAccounts(s, subject, email, newUser);
    UpsertKeepsAccounts(s, subject, email, newUser);
    hide UpsertGoogleUser, AccountsSound, RowsOwned;
    var (s', user) := UpsertGoogleUser(s, subject, email, newUser);
    if user.Success? { OpeningMakesPair(s', user.value, g); }
    hide OpenSession, FreshPair;
  }

  lemma RefreshMakesPair(s: State, token: string, cookie: Option<string>, renewal: Renewal)
    requires WellSigned(s.signed) && FreshRenewal(s, renewal) && BlacklistKnown(s.blacklist, s.signed)
    ensures var (after, r) := DoRefresh(s, token, cookie, renewal, s.clock);
            r.Rotated? ==> FreshPair(after, r.user, r.refresh, r.access)
  {
    BlacklistingStaysKnown(s.blacklist, s.signed, cookie, s.clock);
    hide WellSigned, BlacklistIfValid, Decode, RevokeFamily;
  }

  lemma OnlyLoginsGrant(s: State, c: Call)
    requires ReplyTo(s, c).Opened? || ReplyTo(s, c).Rotated?
    ensures c.VerifyEmail? || c.SignIn? || c.GoogleCallback? || c.Refresh?
    ensures ReplyTo(s, c).Rotated? <==> c.Refresh?
  {}

  /** Whatever call hands out a pair of tokens, the pair is fresh and its user's own. */
  lemma GrantsAreFreshPairs(s: State, c: Call)
    requires Reachable(s) && Enabled(s, c) && (ReplyTo(s, c).Opened? || ReplyTo(s, c).Rotated?)
    ensures var r := ReplyTo(s, c); FreshPair(Next(s, c), r.user, r.refresh, r.access)
  {
    ReachableSound(s);
    ReachableBlacklistKnown(s);
    OnlyLoginsGrant(s, c);
    assert WellSigned(s.signed) && AccountsSound(s.users, s.links, s.everUsers) && RowsOwned(s.tokens, s.users) by {
      hide FamiliesSound;
    }
    var t := At(s, c.at);
    hide Inv, FreshPair, DoVerifyEmail, DoSignIn, DoGoogleCallback, DoRefresh;
    hide WellSigned, AccountsSound, RowsOwned, BlacklistKnown;
    match c
    case VerifyEmail(_, mailed, grant, commits) => VerifyEmailMakesPair(t, mailed, grant, commits);
    case SignIn(_, email, password, grant) => SignInMakesPair(t, email, password, grant);
    case GoogleCallback(_, subject, email, newUser, grant) => GoogleMakesPair(t, subject, email, newUser, grant);
    case Refresh(_, token, cookie, renewal) => RefreshMakesPair(t, token, cookie, renewal);
  }

  /**
   A fresh pair serves its user exactly for its lifetime: until some call intervenes,
   the gate admits the access token if and only if its `exp` lies ahead, and a refresh
   with the refresh token rotates it if and only if the row has not run out.
   */
  lemma FreshPairServes(s: State, user: UserId, refresh: string, access: string, now: int, c: Call)
    requires FreshPair(s, user, refresh, access)
    requires c.Refresh? && c.token == refresh
    ensures CurrentUser(Decode(s.signed, Some(access)), s.blacklist, s.users.Keys, now, 0)
            == if Seconds(now) < Seconds(s.clock + ACCESS_TOKEN_LIFETIME) then Some(user) else None
    ensures ReplyTo(s, c) == if c.at <= s.clock + REFRESH_TOKEN_LIFETIME
                             then Rotated(user, c.renewal.refresh, c.renewal.access)
                             else Failed(InvalidRefreshToken)
  {}

  /**
   The tokens a call hands out serve their user for exactly their lifetimes. Over any
   run the gate admits the access token until it is presented to a call that blacklists
   it, its `exp` passes or the account goes; and a refresh that comes next rotates the
   refresh token if and only if its row has not run out.
   */
  lemma GrantsServe(s: State, c: Call, calls: seq<Call>, now: int, next: Call)
    requires Reachable(s) && Enabled(s, c) && (ReplyTo(s, c).Opened? || ReplyTo(s, c).Rotated?)
    requires Runnable(Next(s, c), calls) && Run(Next(s, c), calls).clock <= now
    requires next.Refresh? && next.token == ReplyTo(s, c).refresh
    ensures var (r, end) := (ReplyTo(s, c), Run(Next(s, c), calls));
            CurrentUser(Decode(end.signed, Some(r.access)), end.blacklist, end.users.Keys, now, 0)
            == if !Presents(Next(s, c), calls, r.access) && Seconds(now) < Seconds(c.at + ACCESS_TOKEN_LIFETIME)
                  && r.user in end.users
               then Some(r.user) else None
    ensures ReplyTo(Next(s, c), next) == if next.at <= c.at + REFRESH_TOKEN_LIFETIME
                                         then Rotated(ReplyTo(s, c).user, next.renewal.refresh, next.renewal.access)
                                         else Failed(InvalidRefreshToken)
  {
    var r := ReplyTo(s, c);
    GrantsAreFreshPairs(s, c);
    ReachableSound(s);
    CallKeepsInv(s, c);
    Framed(s, c);
    FreshPairServes(Next(s, c), r.user, r.refresh, r.access, now, next);
    hide Inv, Next, ReplyTo, Presents, Run, Runnable;
    AdmittedUntilPresented(Next(s, c), calls, r.access, now);
  }
}
