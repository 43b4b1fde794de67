/** Accounts over whole runs: verification, and which account a Google subject signs in to. */
module AccountTheorems {
  import opened Prelude
  import opened Redis
  import opened AccessTokens
  import opened Sessions
  import opened SessionInvariants
  import opened SessionTheorems
  import opened Footprints
  import Lockout
  import Verification

  /**
   A user without a password is verified, a linked user is verified, and every
   refresh-token row belongs to a verified user.
   */
  lemma OnlyVerifiedHoldSessions(s: State)
    requires Reachable(s)
    ensures forall u :: u in s.users && s.users[u].password.None? ==> s.users[u].verified
    ensures forall l :: l in s.links ==> l.user in s.users && s.users[l.user].verified
    ensures forall h :: h in s.tokens ==> s.tokens[h].user in s.users && s.users[s.tokens[h].user].verified
  {
    ReachableSound(s);
    hide FamiliesSound;
  }

  // ----- Why accounts change -----

  /** Whatever the call changes about an account has its cause in the call; a deleted one never returns. */
  ghost predicate Caused(s: State, c: Call, after: map<UserId, User>, user: UserId) {
    && (user !in s.users && user in s.everUsers ==> user !in after)
    && (user in s.users && user !in after ==> Deletes(c, user))
    && (user in s.users && user in after ==>
          var (was, is_) := (s.users[user], after[user]);
          && (is_.email != was.email ==> c.UpdateProfile? && c.user == user && c.newEmail == Some(is_.email))
          && (is_.password != was.password ==>
                || (c.ResetPassword? && Get(s.resets, c.mailed, c.at) == Some(user) && is_.password == Some(c.password))
                || (c.ChangePassword? && c.user == user && was.password == Some(c.current)
                    && is_.password == Some(c.password)))
          && (is_.verified != was.verified ==>
                c.VerifyEmail? && is_.verified && Verification.Lookup(s.index, c.mailed, c.at) == Some(user)))
  }

  lemma NothingCaused(s: State, c: Call, user: UserId)
    ensures Caused(s, c, s.users, user)
  {}

  lemma SignUpCaused(s: State, email: string, password: string, newUser: UserId, mailed: string, user: UserId)
    requires newUser !in s.everUsers && s.users.Keys <= s.everUsers
    ensures Caused(s, SignUp(s.clock, email, password, newUser, mailed),
                   DoSignUp(s, email, password, newUser, mailed, s.clock).0.users, user)
  {
    hide FindUser, Verification.Issue;
  }

  lemma UpdateCaused(s: State, owner: UserId, newEmail: Option<string>, user: UserId)
    ensures Caused(s, UpdateProfile(s.clock, owner, newEmail), DoUpdateProfile(s, owner, newEmail).0.users, user)
  {
    hide EmailTaken;
  }

  lemma MailKeepsUsers(s: State, email: string, mailed: string)
    ensures DoResend(s, email, mailed, s.clock).0.users == s.users
    ensures DoRequestReset(s, email, mailed, s.clock).0.users == s.users
  {
    hide FindUser, SetEx, Verification.Issue;
  }

  lemma VerifyEmailCaused(s: State, mailed: string, g: Grant, commits: bool, user: UserId)
    ensures Caused(s, VerifyEmail(s.clock, mailed, g, commits),
                   DoVerifyEmail(s, mailed, g, commits, s.clock).0.users, user)
  {
    hide Verification.Redeem, Verification.Lookup, MintAccess, MintRefresh;
  }

  lemma SignInKeepsUsers(s: State, email: string, password: string, g: Grant)
    ensures DoSignIn(s, email, password, g, s.clock).0.users == s.users
  {
    hide FindUser, CredentialsPass, MintAccess, MintRefresh, Lockout.Locked, Lockout.Incremented, Lockout.FailureCount;
  }

  lemma RefreshKeepsUsers(s: State, token: string, cookie: Option<string>, renewal: Renewal)
    ensures DoRefresh(s, token, cookie, renewal, s.clock).0.users == s.users
  {
    hide RevokeFamily, BlacklistIfValid, HasUnrevoked, Decode, MintAccess, MintRefresh;
  }

  lemma UpsertChangesNobody(s: State, subject: string, email: string, newUser: UserId, user: UserId)
    requires AccountsSound(s.users, s.links, s.everUsers) && newUser !in s.everUsers
    ensures var s' := UpsertGoogleUser(s, subject, email, newUser).0;
            && (user in s.users ==> user in s'.users && s'.users[user] == s.users[user])
            && (user !in s.users && user in s'.users ==> user == newUser)
  {
    hide FindUser, LinkedUser;
  }

  lemma GoogleCaused(s: State, c: Call, user: UserId)
    requires AccountsSound(s.users, s.links, s.everUsers) && Enabled(s, c) && c.GoogleCallback?
    ensures Caused(s, c, Next(s, c).users, user)
  {
    UpsertChangesNobody(At(s, c.at), c.subject, c.email, c.newUser, user);
    hide UpsertGoogleUser, AccountsSound, MintAccess, MintRefresh;
  }

  lemma LogoutCaused(s: State, c: Call, user: UserId)
    requires c.Logout? || c.LogoutAll? || c.DeleteProfile?
    ensures Caused(s, c, Next(s, c).users, user)
  {
    hide RevokeActive, BlacklistIfValid, ActiveSessions, WithoutUser, Decode;
  }

  lemma ResetCaused(s: State, mailed: string, password: string, user: UserId)
    ensures Caused(s, ResetPassword(s.clock, mailed, password),
                   DoResetPassword(s, mailed, password, s.clock).0.users, user)
  {
    hide WithoutUser, Get;
  }

  lemma ChangeCaused(
    s: State, owner: UserId, current: string, password: string, refresh: Option<string>, cookie: Option<string>,
    user: UserId)
    ensures Caused(s, ChangePassword(s.clock, owner, current, password, refresh, cookie),
                   DoChangePassword(s, owner, current, password, refresh, cookie, s.clock).0.users, user)
  {
    if owner in s.users {
      LogoutKeepsUsers(s.(users := s.users[owner := s.users[owner].(password := Some(password))]), refresh, cookie);
    }
    hide DoLogout;
  }

  lemma LogoutKeepsUsers(s: State, refresh: Option<string>, cookie: Option<string>)
    ensures DoLogout(s, refresh, cookie, s.clock).users == s.users
  {}

  /**
   Only deletion by its owner removes an account; only its owner's profile update
   changes its e-mail; only a reset token issued to it, or its owner giving the
   current password, changes the password; only a verification token issued to it
   verifies it.
   */
  lemma AccountChangesHaveCauses(s: State, c: Call, user: UserId)
    requires Inv(s) && Enabled(s, c)
    ensures Caused(s, c, Next(s, c).users, user)
  {
    AccountsAreSound(s);
    var t := At(s, c.at);
    hide Inv, Caused, DoResetPassword, DoChangePassword, DoVerifyEmail, DoSignIn, DoRefresh;
    hide DoSignUp, DoResend, DoRequestReset, DoUpdateProfile;
    match c
    case SignUp(_, email, password, newUser, mailed) => SignUpCaused(t, email, password, newUser, mailed, user);
    case ResendVerification(_, email, mailed) =>
      MailKeepsUsers(t, email, mailed);
      NothingCaused(s, c, user);
    case RequestReset(_, email, mailed) =>
      MailKeepsUsers(t, email, mailed);
      NothingCaused(s, c, user);
    case UpdateProfile(_, owner, newEmail) => UpdateCaused(t, owner, newEmail, user);
    case VerifyEmail(_, mailed, grant, commits) => VerifyEmailCaused(t, mailed, grant, commits, user);
    case SignIn(_, email, password, grant) =>
      SignInKeepsUsers(t, email, password, grant);
      NothingCaused(s, c, user);
    case Refresh(_, token, cookie, renewal) =>
      RefreshKeepsUsers(t, token, cookie, renewal);
      NothingCaused(s, c, user);
    case GoogleCallback(_, _, _, _, _) => GoogleCaused(s, c, user);
    case ResetPassword(_, mailed, password) => ResetCaused(t, mailed, password, user);
    case ChangePassword(_, owner, current, password, refresh, cookie) =>
      ChangeCaused(t, owner, current, password, refresh, cookie, user);
    case _ => LogoutCaused(s, c, user);
  }

  // ----- Verification never reverts -----

  lemma {:induction false} SettledRun(s: State, calls: seq<Call>, user: UserId)
    requires Inv(s) && Runnable(s, calls)
    requires user in s.everUsers && (user in s.users ==> s.users[user].verified)
    ensures user in Run(s, calls).users ==> Run(s, calls).users[user].verified
    decreases |calls|
  {
    if calls != [] {
      var c := calls[0];
      AccountChangesHaveCauses(s, c, user);
      CallKeepsInv(s, c);
      Framed(s, c);
      hide Next, Inv;
      SettledRun(Next(s, c), calls[1..], user);
    }
  }

  /** A verified user stays verified for as long as the account exists. */
  lemma VerificationNeverReverts(s: State, calls: seq<Call>, user: UserId)
    requires Reachable(s) && Runnable(s, calls) && user in s.users && s.users[user].verified
    ensures user in Run(s, calls).users ==> Run(s, calls).users[user].verified
  {
    ReachableSound(s);
    AccountsAreSound(s);
    hide Inv;
    SettledRun(s, calls, user);
  }

  lemma UpsertVerifiesNobody(s: State, subject: string, email: string, newUser: UserId, user: UserId)
    requires AccountsSound(s.users, s.links, s.everUsers) && newUser !in s.everUsers && user in s.users
    ensures var (s', signedIn) := UpsertGoogleUser(s, subject, email, newUser);
            && user in s'.users && s'.users[user].verified == s.users[user].verified
            && (signedIn == Success(user) ==> s.users[user].verified)
  {}

  /** Signing in with Google changes no existing account's verification. */
  lemma GoogleNeverVerifies(s: State, c: Call, user: UserId)
    requires Reachable(s) && Enabled(s, c) && c.GoogleCallback? && user in s.users
    ensures user in Next(s, c).users && Next(s, c).users[user].verified == s.users[user].verified
    ensures ReplyTo(s, c).Opened? && ReplyTo(s, c).user == user ==> s.users[user].verified
  {
    ReachableSound(s);
    AccountsAreSound(s);
    hide UpsertGoogleUser, Inv, AccountsSound, MintAccess, MintRefresh;
    UpsertVerifiesNobody(At(s, c.at), c.subject, c.email, c.newUser, user);
  }

  // ----- Google links -----

  /** A subject links to at most one user and a user to at most one subject. */
  lemma LinksAreOneToOne(s: State, l: Link, m: Link)
    requires Reachable(s) && l in s.links && m in s.links
    ensures l.subject == m.subject <==> l.user == m.user
  {
    ReachableSound(s);
    hide FamiliesSound;
  }

  predicate Deletes(c: Call, user: UserId) {
    c.DeleteProfile? && c.user == user
  }

  lemma LinkAcrossUpsert(s: State, subject: string, email: string, newUser: UserId, l: Link)
    requires AccountsSound(s.users, s.links, s.everUsers) && l in s.links
    ensures var (s', user) := UpsertGoogleUser(s, subject, email, newUser);
            l in s'.links && (subject == l.subject ==> user == Success(l.user))
  {
    hide FindUser;
  }

  lemma LinkAcrossGoogle(s: State, c: Call, l: Link)
    requires AccountsSound(s.users, s.links, s.everUsers) && l in s.links && c.GoogleCallback?
    ensures l in Next(s, c).links
    ensures c.subject == l.subject ==> ReplyTo(s, c) == Opened(l.user, c.grant.refresh, c.grant.access)
  {
    LinkAcrossUpsert(At(s, c.at), c.subject, c.email, c.newUser, l);
    hide AccountsSound, UpsertGoogleUser, MintAccess, MintRefresh;
  }

  lemma LinkStep(s: State, c: Call, l: Link)
    requires AccountsSound(s.users, s.links, s.everUsers) && l in s.links && !Deletes(c, l.user)
    ensures l in Next(s, c).links
    ensures c.GoogleCallback? && c.subject == l.subject ==>
              ReplyTo(s, c) == Opened(l.user, c.grant.refresh, c.grant.access)
  {
    if c.GoogleCallback? {
      LinkAcrossGoogle(s, c, l);
      hide Next, ReplyTo;
    } else {
      if c.DeleteProfile? {
        hide AccountsSound, DoLogout;
        LogoutFrames(DropUser(At(s, c.at), c.user), c.refresh, c.cookie);
      } else {
        Framed(s, c);
        hide AccountsSound, Next;
      }
    }
  }

  lemma {:induction false} LinkedSubjectRun(s: State, calls: seq<Call>, l: Link)
    requires Inv(s) && Runnable(s, calls) && l in s.links
    requires forall i :: 0 <= i < |calls| ==> !Deletes(calls[i], l.user)
    ensures l in Run(s, calls).links
    ensures forall i :: 0 <= i < |calls| && calls[i].GoogleCallback? && calls[i].subject == l.subject ==>
              Replies(s, calls)[i] == Opened(l.user, calls[i].grant.refresh, calls[i].grant.access)
    decreases |calls|
  {
    if calls != [] {
      var c := calls[0];
      assert AccountsSound(s.users, s.links, s.everUsers) by { hide FamiliesSound; }
      LinkStep(s, c, l);
      CallKeepsInv(s, c);
      hide Inv, Next, ReplyTo, AccountsSound;
      var later := Replies(Next(s, c), calls[1..]);
      LinkedSubjectRun(Next(s, c), calls[1..], l);
      forall i | 0 <= i < |calls| && calls[i].GoogleCallback? && calls[i].subject == l.subject
        ensures Replies(s, calls)[i] == Opened(l.user, calls[i].grant.refresh, calls[i].grant.access)
      {
        if i > 0 { assert calls[1..][i - 1] == calls[i] && Replies(s, calls)[i] == later[i - 1]; }
      }
    }
  }

  /**
   Once a subject is linked, every later Google sign-in with it opens a session of
   the same user, whatever e-mail Google reports and whatever becomes of the
   account's own e-mail, until the account is deleted.
   */
  lemma LinkedSubjectKeepsItsUser(s: State, calls: seq<Call>, l: Link)
    requires Reachable(s) && Runnable(s, calls) && l in s.links
    requires forall i :: 0 <= i < |calls| ==> !Deletes(calls[i], l.user)
    ensures l in Run(s, calls).links
    ensures forall i :: 0 <= i < |calls| && calls[i].GoogleCallback? && calls[i].subject == l.subject ==>
              Replies(s, calls)[i] == Opened(l.user, calls[i].grant.refresh, calls[i].grant.access)
  {
    ReachableSound(s);
    hide Inv;
    LinkedSubjectRun(s, calls, l);
  }
}
