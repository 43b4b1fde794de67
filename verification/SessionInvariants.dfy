/** What every service call keeps, and hence what holds in every reachable state. */
module SessionInvariants {
  import opened Prelude
  import opened Redis
  import opened Settings
  import opened AccessTokens
  import opened Sessions
  import Lockout
  import Verification

  type Chains = map<Family, Chain>

  // ----- Token families -----

  /** The family's rows are gone, all of them. */
  ghost predicate Absent(tokens: Tokens, c: Chain) {
    forall i :: 0 <= i < |c.hashes| ==> c.hashes[i] !in tokens
  }

  /**
   The family's rows are exactly its chain: one owner, and every token but the
   newest is revoked.
   */
  ghost predicate Present(tokens: Tokens, f: Family, c: Chain) {
    forall i :: 0 <= i < |c.hashes| ==>
      && c.hashes[i] in tokens
      && tokens[c.hashes[i]].family == f
      && tokens[c.hashes[i]].user == c.owner
      && (i < |c.hashes| - 1 ==> tokens[c.hashes[i]].revoked)
  }

  ghost predicate Distinct(hashes: seq<string>) {
    forall i, j :: 0 <= i < j < |hashes| ==> hashes[i] != hashes[j]
  }

  ghost predicate FamilySound(tokens: Tokens, f: Family, c: Chain) {
    && c.hashes != []
    && Distinct(c.hashes)
    && (Absent(tokens, c) || Present(tokens, f, c))
  }

  ghost predicate RowSound(h: string, row: Row, chains: Chains) {
    && row.family in chains
    && h in chains[row.family].hashes
    && row.lastUsed.Some?
  }

  ghost predicate FamiliesSound(tokens: Tokens, chains: Chains, signed: Signed) {
    && (forall f :: f in chains ==> FamilySound(tokens, f, chains[f]))
    && (forall h :: h in tokens ==> RowSound(h, tokens[h], chains))
    && (forall f, h :: f in chains && h in chains[f].hashes ==> h in signed)
    && (forall f, g, h :: f in chains && g in chains && h in chains[f].hashes && h in chains[g].hashes ==> f == g)
  }

  /** Same rows, some of them newly revoked. */
  ghost predicate OnlyRevokes(before: Tokens, after: Tokens) {
    && after.Keys == before.Keys
    && forall h :: h in before ==> after[h] == before[h] || after[h] == Revoke(before[h])
  }

  lemma RevokingKeepsFamilies(before: Tokens, after: Tokens, chains: Chains, signed: Signed)
    requires FamiliesSound(before, chains, signed) && OnlyRevokes(before, after)
    ensures FamiliesSound(after, chains, signed)
  {
    forall f | f in chains
      ensures FamilySound(after, f, chains[f])
    {
      assert FamilySound(before, f, chains[f]);
      if Present(before, f, chains[f]) {
        assert Present(after, f, chains[f]);
      }
    }
    forall h | h in after
      ensures RowSound(h, after[h], chains)
    {
      assert RowSound(h, before[h], chains);
    }
  }

  lemma RemovingUserKeepsFamilies(tokens: Tokens, user: UserId, chains: Chains, signed: Signed)
    requires FamiliesSound(tokens, chains, signed)
    ensures FamiliesSound(WithoutUser(tokens, user), chains, signed)
  {
    var after := WithoutUser(tokens, user);
    forall f | f in chains
      ensures FamilySound(after, f, chains[f])
    {
      var c := chains[f];
      assert FamilySound(tokens, f, c);
      if Present(tokens, f, c) && c.owner != user {
        assert Present(after, f, c);
      } else {
        assert Absent(after, c);
      }
    }
    forall h | h in after
      ensures RowSound(h, after[h], chains)
    {
      assert RowSound(h, tokens[h], chains);
    }
  }

  lemma OpeningKeepsFamilies(
    tokens: Tokens, chains: Chains, signed: Signed, h: string, row: Row, signedAfter: Signed)
    requires FamiliesSound(tokens, chains, signed)
    requires h !in signed && row.family !in chains && row.lastUsed.Some?
    requires signed.Keys + {h} <= signedAfter.Keys
    ensures FamiliesSound(tokens[h := row], chains[row.family := Chain(row.user, [h])], signedAfter)
  {
    var after, chains' := tokens[h := row], chains[row.family := Chain(row.user, [h])];
    forall f | f in chains'
      ensures FamilySound(after, f, chains'[f])
    {
      if f == row.family {
        assert Present(after, f, chains'[f]);
      } else {
        var c := chains[f];
        assert h !in c.hashes;
        assert FamilySound(tokens, f, c);
        if Absent(tokens, c) { assert Absent(after, c); } else { assert Present(after, f, c); }
      }
    }
    forall k | k in after
      ensures RowSound(k, after[k], chains')
    {
      if k != h { assert RowSound(k, tokens[k], chains); }
    }
  }

  /** An unrevoked token is the newest of its family's chain. */
  lemma UnrevokedIsNewest(tokens: Tokens, chains: Chains, signed: Signed, h: string)
    requires FamiliesSound(tokens, chains, signed)
    requires h in tokens
    ensures var f := tokens[h].family;
            && f in chains && Present(tokens, f, chains[f]) && chains[f].hashes != []
            && tokens[h].user == chains[f].owner
            && (!tokens[h].revoked ==> h == chains[f].hashes[|chains[f].hashes| - 1])
  {
    var f := tokens[h].family;
    assert RowSound(h, tokens[h], chains);
    assert FamilySound(tokens, f, chains[f]);
    var i :| 0 <= i < |chains[f].hashes| && chains[f].hashes[i] == h;
  }

  lemma RotatingKeepsFamilies(
    tokens: Tokens, chains: Chains, signed: Signed, h: string, next: string, now: int, row: Row, signedAfter: Signed)
    requires FamiliesSound(tokens, chains, signed)
    requires h in tokens && !tokens[h].revoked
    requires next !in signed && signed.Keys + {next} <= signedAfter.Keys
    requires row.family == tokens[h].family && row.user == tokens[h].user && row.lastUsed.Some?
    ensures var f := tokens[h].family;
            var spent := tokens[h].(revoked := true, lastUsed := Some(now));
            && f in chains
            && FamiliesSound(
                 tokens[h := spent][next := row],
                 chains[f := chains[f].(hashes := chains[f].hashes + [next])], signedAfter)
  {
    var f := tokens[h].family;
    UnrevokedIsNewest(tokens, chains, signed, h);
    var c := chains[f];
    var c' := c.(hashes := c.hashes + [next]);
    var spent := tokens[h].(revoked := true, lastUsed := Some(now));
    var after, chains' := tokens[h := spent][next := row], chains[f := c'];
    assert next !in c.hashes;
    forall g | g in chains'
      ensures FamilySound(after, g, chains'[g])
    {
      if g == f {
        assert FamilySound(tokens, f, c);
        assert Present(after, f, c');
      } else {
        var d := chains[g];
        assert h !in d.hashes && next !in d.hashes;
        assert FamilySound(tokens, g, d);
        if Absent(tokens, d) { assert Absent(after, d); } else { assert Present(after, g, d); }
      }
    }
    forall k | k in after
      ensures RowSound(k, after[k], chains')
    {
      if k != next { assert RowSound(k, tokens[k], chains); }
    }
    forall g, k | g in chains' && k in chains'[g].hashes
      ensures k in signedAfter
    {
      if g == f { assert k in c.hashes || k == next; }
    }
    forall g1, g2, k | g1 in chains' && g2 in chains' && k in chains'[g1].hashes && k in chains'[g2].hashes
      ensures g1 == g2
    {
      if k == next {
        assert forall g :: g in chains ==> next !in chains[g].hashes;
      } else {
        assert k in chains[g1].hashes && k in chains[g2].hashes;
      }
    }
  }

  // ----- Accounts -----

  /** A password-less user is verified, a linked user is verified; e-mails and links are unique. */
  ghost predicate AccountsSound(users: map<UserId, User>, links: set<Link>, everUsers: set<UserId>) {
    && (forall u, v :: u in users && v in users && users[u].email == users[v].email ==> u == v)
    && (forall u :: u in users && users[u].password.None? ==> users[u].verified)
    && (forall l :: l in links ==> l.user in users && users[l.user].verified)
    && (forall l, m :: l in links && m in links && l.subject == m.subject ==> l == m)
    && (forall l, m :: l in links && m in links && l.user == m.user ==> l == m)
    && users.Keys <= everUsers
  }

  /** Every refresh-token row belongs to a verified user. */
  ghost predicate RowsOwned(tokens: Tokens, users: map<UserId, User>) {
    forall h :: h in tokens ==> tokens[h].user in users && users[tokens[h].user].verified
  }

  // ----- Signed tokens -----

  /** Tokens expire within their lifetime from now. */
  ghost predicate LifetimesBounded(signed: Signed, now: int) {
    forall raw :: raw in signed ==>
      signed[raw].exp.Some? && signed[raw].exp.value <= Seconds(now + Lifetime(signed[raw]))
  }

  // ----- Everything -----

  ghost predicate Inv(s: State) {
    && 0 <= s.clock
    && AccountsSound(s.users, s.links, s.everUsers)
    && RowsOwned(s.tokens, s.users)
    && FamiliesSound(s.tokens, s.chains, s.signed)
    && WellSigned(s.signed)
    && LifetimesBounded(s.signed, s.clock)
    && Lockout.WellFormed(s.counters, s.clock)
    && Verification.Agree(s.index, s.clock)
    && Verification.Within(s.index, s.everMailed)
    && s.resets.Keys <= s.everMailed
  }

  lemma AccountsAreSound(s: State)
    requires Inv(s)
    ensures AccountsSound(s.users, s.links, s.everUsers)
  {
    hide FamiliesSound;
  }

  lemma InitialSound()
    ensures Inv(INITIAL)
  {}

  /** The later it gets, the weaker what the stores promise. */
  lemma TimePasses(s: State, now: int)
    requires Inv(s) && s.clock <= now
    ensures Inv(At(s, now))
  {
    forall h | Visible(s.index.byHash, h, now)
      ensures Visible(s.index.byHash, h, s.clock)
    {}
  }

  lemma OpeningKeepsInv(s: State, user: UserId, g: Grant, now: int)
    requires Inv(s) && now == s.clock && FreshGrant(s, g)
    requires user in s.users && s.users[user].verified
    ensures Inv(OpenSession(s, user, g, now))
  {
    hide FamiliesSound;
    var s' := OpenSession(s, user, g, now);
    OpeningKeepsFamilies(s.tokens, s.chains, s.signed, g.refresh, s'.tokens[g.refresh], s'.signed);
  }

  lemma BlacklistingKeepsInv(s: State, cookie: Option<string>, now: int)
    requires Inv(s)
    ensures Inv(PutOnBlacklist(s, cookie, now))
  {
    hide FamiliesSound, AccountsSound, RowsOwned, WellSigned, LifetimesBounded;
    hide Lockout.WellFormed, Verification.Agree, Verification.Within, BlacklistIfValid, Decode;
  }

  lemma RotatingKeepsInv(s: State, token: string, renewal: Renewal, now: int)
    requires Inv(s) && now == s.clock && FreshRenewal(s, renewal)
    requires token in s.tokens && !s.tokens[token].revoked
    ensures Inv(Rotate(s, token, renewal, now))
  {
    hide FamiliesSound, AccountsSound, Lockout.WellFormed, Verification.Agree, Verification.Within;
    var s' := Rotate(s, token, renewal, now);
    UnrevokedIsNewest(s.tokens, s.chains, s.signed, token);
    RotatingKeepsFamilies(
      s.tokens, s.chains, s.signed, token, renewal.refresh, now, s'.tokens[renewal.refresh], s'.signed);
  }

  lemma RevokingKeepsInv(s: State, after: Tokens)
    requires Inv(s) && OnlyRevokes(s.tokens, after)
    ensures Inv(s.(tokens := after))
  {
    RevokingKeepsFamilies(s.tokens, after, s.chains, s.signed);
  }

  lemma LogoutKeepsInv(s: State, refresh: Option<string>, cookie: Option<string>, now: int)
    requires Inv(s)
    ensures Inv(DoLogout(s, refresh, cookie, now))
  {
    hide Inv;
    RevokingKeepsInv(s, RevokeToken(s, refresh).tokens);
    BlacklistingKeepsInv(RevokeToken(s, refresh), cookie, now);
  }

  lemma MailingKeepsInv(s: State, user: UserId, mailed: string, now: int)
    requires Inv(s) && now == s.clock && mailed !in s.everMailed
    ensures Inv(SendVerification(s, user, mailed, now))
  {
    Verification.StepKeepsAgree(s.index, Verification.IssueTo(user, mailed, now), s.everMailed, now);
  }

  lemma RedeemingKeepsInv(s: State, mailed: string, now: int)
    requires Inv(s) && now == s.clock
    ensures Inv(s.(index := Verification.Redeem(s.index, mailed, now)))
  {
    Verification.StepKeepsAgree(s.index, Verification.RedeemAt(mailed, now), s.everMailed, now);
  }

  lemma DroppingKeepsInv(s: State, user: UserId)
    requires Inv(s)
    ensures Inv(DropUser(s, user))
  {
    hide FamiliesSound;
    RemovingUserKeepsFamilies(s.tokens, user, s.chains, s.signed);
  }

  lemma SignUpKeepsInv(s: State, email: string, password: string, newUser: UserId, mailed: string)
    requires Inv(s) && newUser !in s.everUsers && mailed !in s.everMailed
    ensures Inv(DoSignUp(s, email, password, newUser, mailed, s.clock).0)
  {
    if FindUser(s.users, email).None? {
      var s' := s.(users := s.users[newUser := User(email, Some(password), false)],
                   everUsers := s.everUsers + {newUser});
      assert newUser !in s.users;
      MailingKeepsInv(s', newUser, mailed, s.clock);
    }
  }

  lemma VerifyingKeepsInv(s: State, user: UserId)
    requires Inv(s) && user in s.users
    ensures Inv(s.(users := s.users[user := s.users[user].(verified := true)]))
  {
    hide FamiliesSound, WellSigned, LifetimesBounded, Lockout.WellFormed, Verification.Agree, Verification.Within;
  }

  lemma VerifyEmailKeepsInv(s: State, mailed: string, g: Grant, commits: bool)
    requires Inv(s) && FreshGrant(s, g)
    ensures Inv(DoVerifyEmail(s, mailed, g, commits, s.clock).0)
  {
    hide Inv, OpenSession;
    var s' := s.(index := Verification.Redeem(s.index, mailed, s.clock));
    RedeemingKeepsInv(s, mailed, s.clock);
    match Verification.Lookup(s.index, mailed, s.clock)
    case None =>
    case Some(u) =>
      if u in s.users {
        var verified := s'.(users := s.users[u := s.users[u].(verified := true)]);
        VerifyingKeepsInv(s', u);
        OpeningKeepsInv(verified, u, g, s.clock);
      }
  }

  lemma SignInKeepsInv(s: State, email: string, password: string, g: Grant)
    requires Inv(s) && FreshGrant(s, g)
    ensures Inv(DoSignIn(s, email, password, g, s.clock).0)
  {
    var good := CredentialsPass(s.users, email, password);
    Lockout.TryKeepsWellFormed(s.counters, Lockout.Attempt(email, s.clock, good), s.clock);
    if !Lockout.Locked(s.counters, email, s.clock) && good {
      var u := FindUser(s.users, email).value;
      if s.users[u].verified {
        OpeningKeepsInv(s.(counters := Delete(s.counters, email)), u, g, s.clock);
      }
    }
  }

  lemma AddingLinkedUserKeepsAccounts(
    users: map<UserId, User>, links: set<Link>, everUsers: set<UserId>, tokens: Tokens,
    newUser: UserId, email: string, subject: string)
    requires AccountsSound(users, links, everUsers) && RowsOwned(tokens, users)
    requires newUser !in everUsers
    requires forall u :: u in users ==> users[u].email != email
    requires forall l :: l in links ==> l.subject != subject
    ensures var users' := users[newUser := User(email, None, true)];
            && AccountsSound(users', links + {Link(subject, newUser)}, everUsers + {newUser})
            && RowsOwned(tokens, users')
  {
    assert newUser !in users;
  }

  lemma LinkingKeepsAccounts(
    users: map<UserId, User>, links: set<Link>, everUsers: set<UserId>, tokens: Tokens, user: UserId, subject: string)
    requires AccountsSound(users, links, everUsers) && RowsOwned(tokens, users)
    requires user in users
    requires forall l :: l in links ==> l.subject != subject && l.user != user
    ensures var users' := users[user := users[user].(verified := true)];
            && AccountsSound(users', links + {Link(subject, user)}, everUsers)
            && RowsOwned(tokens, users')
  {}

  lemma UpsertTouchesOnlyAccounts(s: State, subject: string, email: string, newUser: UserId)
    ensures var s' := UpsertGoogleUser(s, subject, email, newUser).0;
            && s' == s.(users := s'.users, links := s'.links, everUsers := s'.everUsers)
            && s.everUsers <= s'.everUsers
  {
    hide FindUser, LinkedUser;
  }

  lemma LinkedIsVerified(users: map<UserId, User>, links: set<Link>, everUsers: set<UserId>, l: Link)
    requires AccountsSound(users, links, everUsers) && l in links
    ensures l.user in users && users[l.user].verified
  {}

  lemma UpsertKeepsAccounts(s: State, subject: string, email: string, newUser: UserId)
    requires AccountsSound(s.users, s.links, s.everUsers) && RowsOwned(s.tokens, s.users)
    requires newUser !in s.everUsers
    ensures var (s', user) := UpsertGoogleUser(s, subject, email, newUser);
            && AccountsSound(s'.users, s'.links, s'.everUsers) && RowsOwned(s.tokens, s'.users)
            && (user.Success? ==> user.value in s'.users && s'.users[user.value].verified)
  {
    hide AccountsSound, RowsOwned;
    match LinkedUser(s.links, subject)
    case Some(u) =>
      LinkedIsVerified(s.users, s.links, s.everUsers, Link(subject, u));
    case None =>
      match FindUser(s.users, email)
      case None =>
        AddingLinkedUserKeepsAccounts(s.users, s.links, s.everUsers, s.tokens, newUser, email, subject);
      case Some(u) =>
        if !exists l :: l in s.links && l.user == u {
          LinkingKeepsAccounts(s.users, s.links, s.everUsers, s.tokens, u, subject);
        }
  }

  lemma UpsertKeepsInv(s: State, subject: string, email: string, newUser: UserId)
    requires Inv(s) && newUser !in s.everUsers
    ensures Inv(UpsertGoogleUser(s, subject, email, newUser).0)
  {
    UpsertTouchesOnlyAccounts(s, subject, email, newUser);
    UpsertKeepsAccounts(s, subject, email, newUser);
    hide FamiliesSound, AccountsSound, RowsOwned, UpsertGoogleUser;
  }

  lemma GoogleKeepsInv(s: State, subject: string, email: string, newUser: UserId, g: Grant)
    requires Inv(s) && newUser !in s.everUsers && FreshGrant(s, g)
    ensures Inv(DoGoogleCallback(s, subject, email, newUser, g, s.clock).0)
  {
    UpsertTouchesOnlyAccounts(s, subject, email, newUser);
    UpsertKeepsAccounts(s, subject, email, newUser);
    UpsertKeepsInv(s, subject, email, newUser);
    hide Inv, UpsertGoogleUser;
    var (s', user) := UpsertGoogleUser(s, subject, email, newUser);
    if user.Success? {
      OpeningKeepsInv(s', user.value, g, s.clock);
    }
  }

  lemma RefreshKeepsInv(s: State, token: string, cookie: Option<string>, renewal: Renewal)
    requires Inv(s) && FreshRenewal(s, renewal)
    ensures Inv(DoRefresh(s, token, cookie, renewal, s.clock).0)
  {
    hide Inv;
    if token in s.tokens {
      if s.tokens[token].revoked {
        RevokingKeepsInv(s, RevokeFamily(s.tokens, s.tokens[token].family));
      } else {
        BlacklistingKeepsInv(s, cookie, s.clock);
        RotatingKeepsInv(PutOnBlacklist(s, cookie, s.clock), token, renewal, s.clock);
      }
    }
  }

  lemma NewPasswordKeepsInv(s: State, user: UserId, password: string)
    requires Inv(s) && user in s.users
    ensures Inv(s.(users := s.users[user := s.users[user].(password := Some(password))]))
  {
    hide FamiliesSound, WellSigned, LifetimesBounded, Lockout.WellFormed, Verification.Agree, Verification.Within;
  }

  lemma RemovingRowsKeepsInv(s: State, user: UserId)
    requires Inv(s)
    ensures Inv(s.(tokens := WithoutUser(s.tokens, user)))
  {
    RemovingUserKeepsFamilies(s.tokens, user, s.chains, s.signed);
    hide FamiliesSound, AccountsSound, WellSigned, LifetimesBounded;
    hide Lockout.WellFormed, Verification.Agree, Verification.Within;
  }

  lemma SpendingResetKeepsInv(s: State, mailed: string)
    requires Inv(s)
    ensures Inv(s.(resets := Delete(s.resets, mailed)))
  {
    hide FamiliesSound, AccountsSound, RowsOwned, WellSigned, LifetimesBounded;
    hide Lockout.WellFormed, Verification.Agree, Verification.Within;
  }

  lemma ResetKeepsInv(s: State, mailed: string, password: string)
    requires Inv(s)
    ensures Inv(DoResetPassword(s, mailed, password, s.clock).0)
  {
    hide Inv;
    var spent := s.(resets := Delete(s.resets, mailed));
    SpendingResetKeepsInv(s, mailed);
    match Get(s.resets, mailed, s.clock)
    case None =>
    case Some(u) =>
      if u in s.users {
        NewPasswordKeepsInv(spent, u, password);
        RemovingRowsKeepsInv(spent.(users := s.users[u := s.users[u].(password := Some(password))]), u);
      }
  }

  lemma ChangePasswordKeepsInv(
    s: State, user: UserId, current: string, password: string, refresh: Option<string>, cookie: Option<string>)
    requires Inv(s)
    ensures Inv(DoChangePassword(s, user, current, password, refresh, cookie, s.clock).0)
  {
    hide Inv, DoLogout;
    if user in s.users {
      NewPasswordKeepsInv(s, user, password);
      var s' := s.(users := s.users[user := s.users[user].(password := Some(password))]);
      LogoutKeepsInv(s', refresh, cookie, s.clock);
    }
  }

  lemma ResendKeepsInv(s: State, email: string, mailed: string)
    requires Inv(s) && mailed !in s.everMailed
    ensures Inv(DoResend(s, email, mailed, s.clock).0)
  {
    hide Inv;
    if FindUser(s.users, email).Some? {
      MailingKeepsInv(s, FindUser(s.users, email).value, mailed, s.clock);
    }
  }

  lemma LogoutAllKeepsInv(s: State, user: UserId, cookie: Option<string>)
    requires Inv(s)
    ensures Inv(DoLogoutAll(s, user, cookie, s.clock).0)
  {
    hide Inv;
    RevokingKeepsInv(s, RevokeActive(s.tokens, user, s.clock));
    BlacklistingKeepsInv(s.(tokens := RevokeActive(s.tokens, user, s.clock)), cookie, s.clock);
  }

  lemma RequestResetKeepsInv(s: State, email: string, mailed: string)
    requires Inv(s)
    ensures Inv(DoRequestReset(s, email, mailed, s.clock).0)
  {
    hide FamiliesSound;
  }

  lemma UpdateProfileKeepsInv(s: State, user: UserId, newEmail: Option<string>)
    requires Inv(s)
    ensures Inv(DoUpdateProfile(s, user, newEmail).0)
  {
    hide FamiliesSound;
  }

  lemma DeleteProfileKeepsInv(s: State, user: UserId, refresh: Option<string>, cookie: Option<string>)
    requires Inv(s)
    ensures Inv(DoDeleteProfile(s, user, refresh, cookie, s.clock))
  {
    hide Inv;
    DroppingKeepsInv(s, user);
    LogoutKeepsInv(DropUser(s, user), refresh, cookie, s.clock);
  }

  lemma LoginCallsKeepInv(s: State, c: Call)
    requires Inv(At(s, c.at)) && Enabled(s, c)
    requires c.VerifyEmail? || c.SignIn? || c.GoogleCallback? || c.Refresh?
    ensures Inv(Next(s, c))
  {
    hide Inv, DoVerifyEmail, DoSignIn, DoGoogleCallback, DoRefresh;
    var t := At(s, c.at);
    match c
    case VerifyEmail(_, mailed, grant, commits) => VerifyEmailKeepsInv(t, mailed, grant, commits);
    case SignIn(_, email, password, grant) => SignInKeepsInv(t, email, password, grant);
    case GoogleCallback(_, subject, email, newUser, grant) => GoogleKeepsInv(t, subject, email, newUser, grant);
    case Refresh(_, token, cookie, renewal) => RefreshKeepsInv(t, token, cookie, renewal);
  }

  lemma LogoutCallsKeepInv(s: State, c: Call)
    requires Inv(At(s, c.at))
    requires c.Logout? || c.LogoutAll? || c.ResetPassword? || c.ChangePassword? || c.DeleteProfile?
    ensures Inv(Next(s, c))
  {
    hide Inv, DoLogout, DoLogoutAll, DoResetPassword, DoChangePassword, DoDeleteProfile;
    var t := At(s, c.at);
    match c
    case Logout(_, refresh, cookie) => LogoutKeepsInv(t, refresh, cookie, c.at);
    case LogoutAll(_, user, cookie) => LogoutAllKeepsInv(t, user, cookie);
    case ResetPassword(_, mailed, password) => ResetKeepsInv(t, mailed, password);
    case ChangePassword(_, user, current, password, refresh, cookie) =>
      ChangePasswordKeepsInv(t, user, current, password, refresh, cookie);
    case DeleteProfile(_, user, refresh, cookie) => DeleteProfileKeepsInv(t, user, refresh, cookie);
  }

  lemma MailCallsKeepInv(s: State, c: Call)
    requires Inv(At(s, c.at)) && Enabled(s, c)
    requires c.SignUp? || c.ResendVerification? || c.RequestReset? || c.UpdateProfile?
    ensures Inv(Next(s, c))
  {
    hide Inv, DoSignUp, DoResend, DoRequestReset, DoUpdateProfile;
    var t := At(s, c.at);
    match c
    case SignUp(_, email, password, newUser, mailed) => SignUpKeepsInv(t, email, password, newUser, mailed);
    case ResendVerification(_, email, mailed) => ResendKeepsInv(t, email, mailed);
    case RequestReset(_, email, mailed) => RequestResetKeepsInv(t, email, mailed);
    case UpdateProfile(_, user, newEmail) => UpdateProfileKeepsInv(t, user, newEmail);
  }

  /** Every enabled call keeps every invariant. */
  lemma CallKeepsInv(s: State, c: Call)
    requires Inv(s) && Enabled(s, c)
    ensures Inv(Next(s, c))
  {
    TimePasses(s, c.at);
    hide Inv, Next;
    if c.VerifyEmail? || c.SignIn? || c.GoogleCallback? || c.Refresh? {
      LoginCallsKeepInv(s, c);
    } else if c.SignUp? || c.ResendVerification? || c.RequestReset? || c.UpdateProfile? {
      MailCallsKeepInv(s, c);
    } else {
      LogoutCallsKeepInv(s, c);
    }
  }

  lemma {:induction false} RunKeepsInv(s: State, calls: seq<Call>)
    requires Inv(s) && Runnable(s, calls)
    ensures Inv(Run(s, calls))
    decreases |calls|
  {
    if calls != [] {
      CallKeepsInv(s, calls[0]);
      RunKeepsInv(Next(s, calls[0]), calls[1..]);
    }
  }

  lemma ReachableSound(s: State)
    requires Reachable(s)
    ensures Inv(s)
  {
    var calls: seq<Call> :| Runnable(INITIAL, calls) && s == Run(INITIAL, calls);
    InitialSound();
    RunKeepsInv(INITIAL, calls);
  }
}
