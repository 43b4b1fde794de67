/**
 Who gets in and what becomes of accounts, call by call and over whole runs, said of
 the rows' own fields.
 */
module CredentialTheorems {
  import opened Prelude
  import opened Redis
  import opened Settings
  import opened AccessTokens
  import opened Sessions
  import opened SessionInvariants
  import opened Footprints
  import Lockout
  import Verification

  // ----- Signing in -----

  /** The identifier's counter is there and has reached the limit. */
  ghost predicate Full(s: State, email: string, now: int) {
    && email in s.counters && s.counters[email].value >= MAX_LOGIN_ATTEMPTS
    && (s.counters[email].expiresAt.Some? ==> now < s.counters[email].expiresAt.value)
  }

  /** The account has this e-mail and this password. */
  ghost predicate Matches(s: State, u: UserId, email: string, password: string) {
    u in s.users && s.users[u].email == email && s.users[u].password == Some(password)
  }

  /** What a failed check leaves of the counter: one more, in the window that the first one opened. */
  ghost function Counted(s: State, email: string, now: int): Entry<int> {
    if email in s.counters && (s.counters[email].expiresAt.Some? ==> now < s.counters[email].expiresAt.value)
    then Entry(s.counters[email].value + 1, s.counters[email].expiresAt)
    else Entry(1, Some(now + LOCKOUT_WINDOW))
  }

  lemma CredentialsMatch(s: State, email: string, password: string)
    requires AccountsSound(s.users, s.links, s.everUsers)
    ensures CredentialsPass(s.users, email, password) <==> exists u :: Matches(s, u, email, password)
    ensures forall u: UserId :: Matches(s, u, email, password) ==> FindUser(s.users, email) == Some(u)
  {
    if CredentialsPass(s.users, email, password) {
      assert Matches(s, FindUser(s.users, email).value, email, password);
    }
    forall u: UserId | Matches(s, u, email, password)
      ensures FindUser(s.users, email) == Some(u)
    {}
  }

  lemma FullIsLocked(s: State, email: string, now: int)
    requires Lockout.WellFormed(s.counters, s.clock)
    ensures Full(s, email, now) == Lockout.Locked(s.counters, email, now)
    ensures !Full(s, email, now) ==>
              && Lockout.Incremented(s.counters, email, now) == s.counters[email := Counted(s, email, now)]
              && Lockout.FailureCount(s.counters, email, now) == Counted(s, email, now).value
  {}

  /**
   A sign-in opens a session for a user exactly when the account has that e-mail and
   that password, is verified, and the counter has not reached the limit; it names an
   unverified e-mail under the same conditions on an unverified account. A full counter
   refuses and changes nothing; any other attempt is one failure more.
   */
  lemma SignInOpensExactly(s: State, c: Call, u: UserId)
    requires Inv(s) && c.SignIn?
    ensures ReplyTo(s, c) == Opened(u, c.grant.refresh, c.grant.access) <==>
              Matches(s, u, c.email, c.password) && s.users[u].verified && !Full(s, c.email, c.at)
    ensures Matches(s, u, c.email, c.password) && !s.users[u].verified && !Full(s, c.email, c.at) ==>
              ReplyTo(s, c) == Failed(EmailNotVerified)
    ensures ReplyTo(s, c) == Failed(EmailNotVerified) ==>
              exists v :: Matches(s, v, c.email, c.password) && !s.users[v].verified && !Full(s, c.email, c.at)
    ensures Full(s, c.email, c.at) ==> ReplyTo(s, c) == Failed(AccountLocked) && Next(s, c) == s.(clock := c.at)
    ensures !Full(s, c.email, c.at) && (forall v :: !Matches(s, v, c.email, c.password)) ==>
              && ReplyTo(s, c) == Failed(if Counted(s, c.email, c.at).value >= MAX_LOGIN_ATTEMPTS then AccountLocked
                                         else InvalidCredentials)
              && Next(s, c) == s.(clock := c.at, counters := s.counters[c.email := Counted(s, c.email, c.at)])
    ensures !Full(s, c.email, c.at) && (exists v :: Matches(s, v, c.email, c.password)) ==>
              Next(s, c).counters == s.counters - {c.email}
  {
    InvParts(s);
    FullIsLocked(s, c.email, c.at);
    CredentialsMatch(s, c.email, c.password);
    SignInDecides(At(s, c.at), c.email, c.password, c.grant);
    hide Inv, Full, Counted, CredentialsPass, DoSignIn, AccountsSound, FindUser;
    hide Lockout.Locked, Lockout.Incremented, Lockout.FailureCount;
    assert forall v :: Matches(At(s, c.at), v, c.email, c.password) == Matches(s, v, c.email, c.password);
    if ReplyTo(s, c).Opened? || ReplyTo(s, c) == Failed(EmailNotVerified) {
      var v :| Matches(s, v, c.email, c.password);
    }
  }

  /** The four ways a sign-in goes. */
  lemma SignInDecides(s: State, email: string, password: string, g: Grant)
    ensures var (t, r) := DoSignIn(s, email, password, g, s.clock);
            var user := FindUser(s.users, email);
            if Lockout.Locked(s.counters, email, s.clock) then
              t == s && r == Failed(AccountLocked)
            else if !CredentialsPass(s.users, email, password) then
              && t == s.(counters := Lockout.Incremented(s.counters, email, s.clock))
              && r == Failed(if Lockout.FailureCount(s.counters, email, s.clock) >= MAX_LOGIN_ATTEMPTS
                             then AccountLocked else InvalidCredentials)
            else
              && t.counters == s.counters - {email}
              && user.Some? && user.value in s.users
              && r == if s.users[user.value].verified then Opened(user.value, g.refresh, g.access)
                      else Failed(EmailNotVerified)
  {
    hide Lockout.Locked, Lockout.Incremented, Lockout.FailureCount, MintAccess, MintRefresh;
  }

  lemma InvParts(s: State)
    requires Inv(s)
    ensures AccountsSound(s.users, s.links, s.everUsers)
    ensures Lockout.WellFormed(s.counters, s.clock)
    ensures RowsOwned(s.tokens, s.users)
  {
    hide FamiliesSound;
  }

  // ----- What becomes of accounts -----

  /** A reset with a live token that names the user. */
  ghost predicate ResetsFor(s: State, c: Call, u: UserId) {
    && c.ResetPassword? && c.mailed in s.resets && s.resets[c.mailed].value == u
    && (s.resets[c.mailed].expiresAt.Some? ==> c.at < s.resets[c.mailed].expiresAt.value)
  }

  /** A change by the user that gives the current password. */
  ghost predicate ChangesFor(s: State, c: Call, u: UserId) {
    c.ChangePassword? && c.user == u && u in s.users && s.users[u].password == Some(c.current)
  }

  /** A verification with a live token that names the user, committed. */
  ghost predicate VerifiesFor(s: State, c: Call, u: UserId) {
    && c.VerifyEmail? && c.commits && c.mailed in s.index.byHash && s.index.byHash[c.mailed].value == u
    && (s.index.byHash[c.mailed].expiresAt.Some? ==> c.at < s.index.byHash[c.mailed].expiresAt.value)
  }

  ghost predicate Unused(users: map<UserId, User>, email: string) {
    forall v :: v in users ==> users[v].email != email
  }

  ghost predicate Unlinked(links: set<Link>, subject: string) {
    forall l :: l in links ==> l.subject != subject
  }

  /** A change of e-mail by the user, to one that nobody else has. */
  ghost predicate Renames(s: State, c: Call, u: UserId) {
    && c.UpdateProfile? && c.user == u && c.newEmail.Some?
    && forall v :: v in s.users && v != u ==> s.users[v].email != c.newEmail.value
  }

  ghost function AccountAfter(s: State, c: Call, u: UserId): User
    requires u in s.users
  {
    User(if Renames(s, c, u) then c.newEmail.value else s.users[u].email,
         if ResetsFor(s, c, u) || ChangesFor(s, c, u) then Some(c.password) else s.users[u].password,
         s.users[u].verified || VerifiesFor(s, c, u))
  }

  /** The account the call makes of a new user: unverified by sign-up, verified and without password by Google. */
  ghost function AccountMade(s: State, c: Call, u: UserId): Option<User> {
    if c.SignUp? && c.newUser == u && Unused(s.users, c.email) then
      Some(User(c.email, Some(c.password), false))
    else if c.GoogleCallback? && c.newUser == u && Unlinked(s.links, c.subject) && Unused(s.users, c.email) then
      Some(User(c.email, None, true))
    else
      None
  }

  ghost predicate Account(s: State, c: Call, u: UserId, after: map<UserId, User>) {
    if u in s.users then
      && (u in after <==> !(c.DeleteProfile? && c.user == u))
      && (u in after ==> after[u] == AccountAfter(s, c, u))
    else
      && (u in after <==> AccountMade(s, c, u).Some?)
      && (u in after ==> Some(after[u]) == AccountMade(s, c, u))
  }

  lemma SignUpAccounts(s: State, email: string, password: string, newUser: UserId, mailed: string, u: UserId)
    requires newUser !in s.users
    ensures Account(s, SignUp(s.clock, email, password, newUser, mailed), u,
                    DoSignUp(s, email, password, newUser, mailed, s.clock).0.users)
  {
    var found := FindUser(s.users, email);
    assert found.None? <==> Unused(s.users, email);
    hide FindUser, SendVerification;
    assert SendVerification(s, newUser, mailed, s.clock).users == s.users by { SendingKeepsUsers(s, newUser, mailed); }
    SendingKeepsUsers(
      s.(users := s.users[newUser := User(email, Some(password), false)], everUsers := s.everUsers + {newUser}),
      newUser, mailed);
  }

  lemma SendingKeepsUsers(s: State, user: UserId, mailed: string)
    ensures SendVerification(s, user, mailed, s.clock).users == s.users
  {}

  lemma VerifyEmailAccounts(s: State, mailed: string, g: Grant, commits: bool, u: UserId)
    ensures Account(s, VerifyEmail(s.clock, mailed, g, commits), u,
                    DoVerifyEmail(s, mailed, g, commits, s.clock).0.users)
  {
    hide Verification.Redeem, OpenSession;
    forall t: State, v: UserId
      ensures OpenSession(t, v, g, s.clock).users == t.users
    {
      OpeningKeepsUsers(t, v, g, s.clock);
    }
  }

  lemma OpeningKeepsUsers(s: State, user: UserId, g: Grant, now: int)
    ensures OpenSession(s, user, g, now).users == s.users
  {}

  lemma UpsertAccounts(s: State, subject: string, email: string, newUser: UserId, g: Grant, u: UserId)
    requires AccountsSound(s.users, s.links, s.everUsers) && newUser !in s.everUsers
    ensures Account(s, GoogleCallback(s.clock, subject, email, newUser, g), u,
                    UpsertGoogleUser(s, subject, email, newUser).0.users)
  {
    UpsertUsers(s, subject, email, newUser);
    assert newUser !in s.users;
    hide AccountsSound, UpsertGoogleUser, Unused, Unlinked;
  }

  /** Google makes an account exactly where neither subject nor e-mail is known, and changes none. */
  lemma UpsertUsers(s: State, subject: string, email: string, newUser: UserId)
    requires AccountsSound(s.users, s.links, s.everUsers)
    ensures UpsertGoogleUser(s, subject, email, newUser).0.users
            == if Unlinked(s.links, subject) && Unused(s.users, email) then s.users[newUser := User(email, None, true)]
               else s.users
  {
    var found, linked := FindUser(s.users, email), LinkedUser(s.links, subject);
    assert found.None? <==> Unused(s.users, email);
    assert linked.None? <==> Unlinked(s.links, subject);
    if found.Some? {
      assert s.users[found.value].password.None? ==> s.users[found.value].verified;
    }
    hide AccountsSound, FindUser, LinkedUser, Unused, Unlinked;
  }

  lemma GoogleAccounts(s: State, subject: string, email: string, newUser: UserId, g: Grant, u: UserId)
    requires AccountsSound(s.users, s.links, s.everUsers) && newUser !in s.everUsers
    ensures Account(s, GoogleCallback(s.clock, subject, email, newUser, g), u,
                    DoGoogleCallback(s, subject, email, newUser, g, s.clock).0.users)
  {
    UpsertAccounts(s, subject, email, newUser, g, u);
    hide AccountsSound, UpsertGoogleUser, MintAccess, MintRefresh, Account;
  }

  lemma ResetAccounts(s: State, mailed: string, password: string, u: UserId)
    ensures Account(s, ResetPassword(s.clock, mailed, password), u,
                    DoResetPassword(s, mailed, password, s.clock).0.users)
  {
    hide WithoutUser, Delete;
  }

  lemma LogoutUsers(s: State, refresh: Option<string>, cookie: Option<string>)
    ensures DoLogout(s, refresh, cookie, s.clock).users == s.users
  {
    hide BlacklistIfValid, Decode;
  }

  lemma ChangeAccounts(
    s: State, user: UserId, current: string, password: string, refresh: Option<string>, cookie: Option<string>,
    u: UserId)
    ensures Account(s, ChangePassword(s.clock, user, current, password, refresh, cookie), u,
                    DoChangePassword(s, user, current, password, refresh, cookie, s.clock).0.users)
  {
    if user in s.users {
      LogoutUsers(s.(users := s.users[user := s.users[user].(password := Some(password))]), refresh, cookie);
    }
    hide DoLogout;
  }

  lemma UpdateAccounts(s: State, user: UserId, newEmail: Option<string>, u: UserId)
    ensures Account(s, UpdateProfile(s.clock, user, newEmail), u, DoUpdateProfile(s, user, newEmail).0.users)
  {}

  lemma DeletionAccounts(s: State, user: UserId, refresh: Option<string>, cookie: Option<string>, u: UserId)
    ensures Account(s, DeleteProfile(s.clock, user, refresh, cookie), u,
                    DoDeleteProfile(s, user, refresh, cookie, s.clock).users)
  {
    LogoutUsers(DropUser(s, user), refresh, cookie);
    hide DoLogout, WithoutUser;
  }

  /** Any other call leaves accounts alone. */
  lemma OthersKeepAccounts(s: State, c: Call)
    requires c.ResendVerification? || c.SignIn? || c.Refresh? || c.Logout? || c.LogoutAll? || c.RequestReset?
    ensures Next(s, c).users == s.users
  {
    hide FindUser, CredentialsPass, Lockout.Locked, Lockout.Incremented, Lockout.FailureCount, Delete, SetEx;
    hide MintAccess, MintRefresh, RevokeFamily, HasUnrevoked, RevokeActive, ActiveSessions, BlacklistIfValid, Decode;
    hide Verification.Issue;
  }

  lemma AccountAt(s: State, c: Call, u: UserId, after: map<UserId, User>)
    ensures Account(At(s, c.at), c, u, after) == Account(s, c, u, after)
  {
    var t := At(s, c.at);
    assert u in s.users ==> AccountAfter(t, c, u) == AccountAfter(s, c, u);
    assert AccountMade(t, c, u) == AccountMade(s, c, u);
    hide AccountAfter, AccountMade;
  }

  /**
   What every call makes of every account: which are made and with what, which go, and
   which e-mail, password and verification the others have afterwards.
   */
  lemma AccountsFollowCalls(s: State, c: Call, u: UserId)
    requires Inv(s) && Enabled(s, c)
    ensures Account(s, c, u, Next(s, c).users)
  {
    InvParts(s);
    var t := At(s, c.at);
    AccountAt(s, c, u, Next(s, c).users);
    assert c.SignUp? ==> c.newUser !in s.users by { hide Inv; }
    hide Inv, AccountsSound, Account, DoSignUp, DoVerifyEmail, DoGoogleCallback;
    hide DoResetPassword, DoChangePassword, DoUpdateProfile, DoDeleteProfile;
    match c
    case SignUp(_, email, password, newUser, mailed) => SignUpAccounts(t, email, password, newUser, mailed, u);
    case VerifyEmail(_, mailed, grant, commits) => VerifyEmailAccounts(t, mailed, grant, commits, u);
    case GoogleCallback(_, subject, email, newUser, grant) => GoogleAccounts(t, subject, email, newUser, grant, u);
    case ResetPassword(_, mailed, password) => ResetAccounts(t, mailed, password, u);
    case ChangePassword(_, user, current, password, refresh, cookie) =>
      ChangeAccounts(t, user, current, password, refresh, cookie, u);
    case UpdateProfile(_, user, newEmail) => UpdateAccounts(t, user, newEmail, u);
    case DeleteProfile(_, user, refresh, cookie) => DeletionAccounts(t, user, refresh, cookie, u);
    case _ =>
      OthersKeepAccounts(s, c);
      hide Next;
      SameAccounts(s, c, u);
  }

  lemma SameAccounts(s: State, c: Call, u: UserId)
    requires c.ResendVerification? || c.SignIn? || c.Refresh? || c.Logout? || c.LogoutAll? || c.RequestReset?
    ensures Account(s, c, u, s.users)
  {}

  // ----- Google -----

  /** The account a Google sign-in resolves to: the linked one, the unlinked one with the e-mail, or a new one. */
  ghost predicate ResolvesTo(s: State, c: Call, u: UserId)
    requires c.GoogleCallback?
  {
    || Link(c.subject, u) in s.links
    || (&& Unlinked(s.links, c.subject)
        && u in s.users && s.users[u].email == c.email && s.users[u].verified
        && forall l :: l in s.links ==> l.user != u)
    || (Unlinked(s.links, c.subject) && Unused(s.users, c.email) && u == c.newUser)
  }

  lemma UpsertResolves(s: State, c: Call, u: UserId)
    requires AccountsSound(s.users, s.links, s.everUsers) && c.GoogleCallback? && c.newUser !in s.everUsers
    ensures var (t, r) := UpsertGoogleUser(s, c.subject, c.email, c.newUser);
            && (r == Success(u) <==> ResolvesTo(s, c, u))
            && t.links == s.links + (if r.Success? then {Link(c.subject, r.value)} else {})
            && (r == Failure(GoogleConflict) <==>
                  && Unlinked(s.links, c.subject)
                  && exists v :: v in s.users && s.users[v].email == c.email && !s.users[v].verified)
  {
    var found, linked := FindUser(s.users, c.email), LinkedUser(s.links, c.subject);
    assert found.None? <==> Unused(s.users, c.email);
    assert linked.None? <==> Unlinked(s.links, c.subject);
    if found.Some? {
      assert forall v :: v in s.users && s.users[v].email == c.email ==> v == found.value;
    }
    if linked.Some? {
      assert Link(c.subject, linked.value) in s.links;
      assert s.links == s.links + {Link(c.subject, linked.value)};
    }
    hide FindUser, LinkedUser;
  }

  /**
   A Google sign-in opens a session for exactly the account it resolves to, and links
   the subject to it if it was not; an unverified account with the e-mail is a conflict.
   No other call makes a link, and only deletion of an account takes its links away.
   */
  lemma GoogleOpensExactly(s: State, c: Call, u: UserId)
    requires Inv(s) && Enabled(s, c) && c.GoogleCallback?
    ensures ReplyTo(s, c) == Opened(u, c.grant.refresh, c.grant.access) <==> ResolvesTo(s, c, u)
    ensures Next(s, c).links == s.links + if ReplyTo(s, c).Opened? then {Link(c.subject, ReplyTo(s, c).user)} else {}
    ensures ReplyTo(s, c) == Failed(GoogleConflict) <==>
              && Unlinked(s.links, c.subject)
              && exists v :: v in s.users && s.users[v].email == c.email && !s.users[v].verified
  {
    InvParts(s);
    var t := At(s, c.at);
    UpsertResolves(t, c, u);
    assert ResolvesTo(t, c, u) == ResolvesTo(s, c, u);
    hide Inv, AccountsSound, UpsertGoogleUser, ResolvesTo, Unlinked, MintAccess, MintRefresh;
  }

  lemma LinksFollowDeletion(s: State, c: Call)
    requires !c.GoogleCallback?
    ensures Next(s, c).links == if c.DeleteProfile? then set l | l in s.links && l.user != c.user else s.links
  {
    if c.DeleteProfile? {
      LogoutFrames(DropUser(At(s, c.at), c.user), c.refresh, c.cookie);
      hide DoLogout, WithoutUser;
    } else {
      Framed(s, c);
      hide Next;
    }
  }

  // ----- What the other calls answer -----

  /** Sign-up is refused exactly for an e-mail in use, a resend exactly for a verified account. */
  lemma MailRepliesExactly(s: State, c: Call)
    requires Inv(s) && (c.SignUp? || c.ResendVerification? || c.RequestReset?)
    ensures c.SignUp? ==> ReplyTo(s, c) == if Unused(s.users, c.email) then Done else Failed(EmailConflict)
    ensures c.RequestReset? ==> ReplyTo(s, c) == Done
    ensures c.ResendVerification? ==>
              && (ReplyTo(s, c) == Failed(AlreadyVerified) <==>
                    exists u :: u in s.users && s.users[u].email == c.email && s.users[u].verified)
              && (ReplyTo(s, c) == Done || ReplyTo(s, c) == Failed(AlreadyVerified))
  {
    InvParts(s);
    var found := FindUser(s.users, c.email);
    assert found.None? <==> Unused(s.users, c.email);
    hide Inv, FindUser, SendVerification, SetEx;
  }

  /** The token is stored, has not run out, and names an account. */
  ghost predicate Names(store: Store<string, UserId>, token: string, now: int, u: UserId) {
    && token in store && store[token].value == u
    && (store[token].expiresAt.Some? ==> now < store[token].expiresAt.value)
  }

  /** Verification opens a session exactly for the unverified account the live token names, if the commit succeeds. */
  lemma VerifyEmailRepliesExactly(s: State, c: Call, u: UserId)
    requires c.VerifyEmail?
    ensures ReplyTo(s, c) == Opened(u, c.grant.refresh, c.grant.access) <==>
              Names(s.index.byHash, c.mailed, c.at, u) && u in s.users && !s.users[u].verified && c.commits
    ensures Names(s.index.byHash, c.mailed, c.at, u) && u in s.users && s.users[u].verified ==>
              ReplyTo(s, c) == Failed(AlreadyVerified)
    ensures (forall v :: v in s.users ==> !Names(s.index.byHash, c.mailed, c.at, v)) <==>
              ReplyTo(s, c) == Failed(TokenExpired)
  {
    hide Verification.Redeem, MintAccess, MintRefresh;
    assert s.index.byHash.Keys == At(s, c.at).index.byHash.Keys;
  }

  /**
   A reset goes through exactly for a live token that names an account, a change exactly
   with the current password.
   */
  lemma PasswordRepliesExactly(s: State, c: Call)
    requires c.ResetPassword? || c.ChangePassword?
    ensures c.ResetPassword? ==>
              ReplyTo(s, c) == if exists u :: u in s.users && ResetsFor(s, c, u) then Done
                               else Failed(InvalidResetToken)
    ensures c.ChangePassword? ==>
              ReplyTo(s, c) == if ChangesFor(s, c, c.user) then Done
                               else Failed(if c.user in s.users then InvalidCredentials else MissingUser)
  {
    hide DoLogout, WithoutUser, Delete;
  }

  /** A change of e-mail is refused exactly when another account has it. */
  lemma UpdateRepliesExactly(s: State, c: Call)
    requires c.UpdateProfile? && c.user in s.users
    ensures ReplyTo(s, c) == if c.newEmail.None? || Renames(s, c, c.user) then Done else Failed(ConstraintViolation)
  {}

  // ----- Passwords over whole runs -----

  ghost predicate SetsPassword(s: State, c: Call, u: UserId) {
    (u in s.users && ResetsFor(s, c, u)) || ChangesFor(s, c, u)
  }

  /** No call of the run sets the user's password. */
  ghost predicate KeepsPassword(s: State, calls: seq<Call>, u: UserId)
    decreases |calls|
  {
    calls != [] ==> !SetsPassword(s, calls[0], u) && KeepsPassword(Next(s, calls[0]), calls[1..], u)
  }

  /** The user existed, and unless deleted since has this password. */
  ghost predicate Holds(s: State, u: UserId, password: string) {
    u in s.everUsers && (u in s.users ==> s.users[u].password == Some(password))
  }

  lemma EverUsersNeverMade(s: State, c: Call, u: UserId)
    requires Enabled(s, c) && u in s.everUsers
    ensures AccountMade(s, c, u).None?
  {}

  lemma HoldsStep(s: State, c: Call, u: UserId, password: string)
    requires Inv(s) && Enabled(s, c) && Holds(s, u, password) && !SetsPassword(s, c, u)
    ensures Holds(Next(s, c), u, password)
  {
    AccountsFollowCalls(s, c, u);
    EverUsersNeverMade(s, c, u);
    Framed(s, c);
    hide Inv, Next;
  }

  lemma {:induction false} HoldsRun(s: State, calls: seq<Call>, u: UserId, password: string)
    requires Inv(s) && Runnable(s, calls) && Holds(s, u, password) && KeepsPassword(s, calls, u)
    ensures Holds(Run(s, calls), u, password)
    decreases |calls|
  {
    if calls != [] {
      HoldsStep(s, calls[0], u, password);
      CallKeepsInv(s, calls[0]);
      hide Inv, Next, Holds, SetsPassword;
      HoldsRun(Next(s, calls[0]), calls[1..], u, password);
    }
  }

  lemma SetPasswordHolds(s: State, c: Call, u: UserId)
    requires Inv(s) && Enabled(s, c)
    requires SetsPassword(s, c, u) || (c.SignUp? && u == c.newUser && Unused(s.users, c.email))
    ensures Holds(Next(s, c), u, c.password) && u in Next(s, c).users
  {
    AccountsFollowCalls(s, c, u);
    CallKeepsInv(s, c);
    InvParts(Next(s, c));
    InvParts(s);
    assert c.SignUp? ==> c.newUser !in s.users by { hide Inv, Next; }
    assert u in Next(s, c).users ==> u in Next(s, c).everUsers by { hide Inv, Next; }
    hide Inv, Next;
  }

  /**
   Once a reset, a change of password or a sign-up went through, and until the next
   that sets the user's password, in any continuation: a sign-in opens a session for the
   user exactly with that password, the account's e-mail, a verified account and a counter
   below the limit.
   */
  lemma OnlySetPasswordOpens(s: State, c: Call, calls: seq<Call>, d: Call, u: UserId)
    requires Reachable(s) && Enabled(s, c)
    requires SetsPassword(s, c, u) || (c.SignUp? && u == c.newUser && Unused(s.users, c.email))
    requires Runnable(Next(s, c), calls) && KeepsPassword(Next(s, c), calls, u)
    requires d.SignIn?
    ensures var end := Run(Next(s, c), calls);
            ReplyTo(end, d) == Opened(u, d.grant.refresh, d.grant.access) <==>
              && u in end.users && d.password == c.password && end.users[u].email == d.email && end.users[u].verified
              && !Full(end, d.email, d.at)
  {
    ReachableSound(s);
    SetPasswordHolds(s, c, u);
    CallKeepsInv(s, c);
    hide Inv, Next, Run, Runnable, KeepsPassword, ReplyTo, Full, SetsPassword, Unused;
    HoldsRun(Next(s, c), calls, u, c.password);
    RunKeepsInv(Next(s, c), calls);
    SignInOpensExactly(Run(Next(s, c), calls), d, u);
  }
}
