/**
 The authentication service itself: tables and Redis keys as fields, service
 calls as methods that update them. Each method is proved against the step of the
 session state machine it stands for, and keeps the invariants of that machine.
 */
module AuthService {
  import opened Prelude
  import opened Redis
  import opened Settings
  import opened AccessTokens
  import opened Sessions
  import opened SessionInvariants
  import Lockout
  import Verification

  lemma SignInUnfolds(s: State, email: string, password: string, g: Grant, now: int)
    ensures var c := SignIn(now, email, password, g);
            (Next(s, c), ReplyTo(s, c)) == DoSignIn(At(s, now), email, password, g, now)
  {
    hide DoSignIn;
  }

  lemma RefreshUnfolds(s: State, token: string, cookie: Option<string>, renewal: Renewal, now: int)
    ensures var c := Refresh(now, token, cookie, renewal);
            (Next(s, c), ReplyTo(s, c)) == DoRefresh(At(s, now), token, cookie, renewal, now)
  {
    hide DoRefresh;
  }

  lemma VerifyEmailUnfolds(s: State, mailed: string, g: Grant, commits: bool, now: int)
    ensures var c := VerifyEmail(now, mailed, g, commits);
            (Next(s, c), ReplyTo(s, c)) == DoVerifyEmail(At(s, now), mailed, g, commits, now)
  {
    hide DoVerifyEmail;
  }

  lemma UpdateProfileUnfolds(s: State, user: UserId, newEmail: Option<string>, now: int)
    ensures var c := UpdateProfile(now, user, newEmail);
            (Next(s, c), ReplyTo(s, c)) == DoUpdateProfile(At(s, now), user, newEmail)
  {
    hide DoUpdateProfile;
  }

  lemma SignUpUnfolds(s: State, email: string, password: string, newUser: UserId, mailed: string, now: int)
    ensures var c := SignUp(now, email, password, newUser, mailed);
            (Next(s, c), ReplyTo(s, c)) == DoSignUp(At(s, now), email, password, newUser, mailed, now)
  {
    hide DoSignUp;
  }

  lemma ResetPasswordUnfolds(s: State, mailed: string, password: string, now: int)
    ensures var c := ResetPassword(now, mailed, password);
            (Next(s, c), ReplyTo(s, c)) == DoResetPassword(At(s, now), mailed, password, now)
  {
    hide DoResetPassword;
  }

  lemma RequestResetUnfolds(s: State, email: string, mailed: string, now: int)
    ensures var c := RequestReset(now, email, mailed);
            (Next(s, c), ReplyTo(s, c)) == DoRequestReset(At(s, now), email, mailed, now)
  {
    hide DoRequestReset;
  }

  lemma ResendUnfolds(s: State, email: string, mailed: string, now: int)
    ensures var c := ResendVerification(now, email, mailed);
            (Next(s, c), ReplyTo(s, c)) == DoResend(At(s, now), email, mailed, now)
  {
    hide DoResend;
  }

  class Service {
    // Database tables.
    var users: map<UserId, User>
    var links: set<Link>
    var tokens: Tokens
    // Redis keys, one map for each prefix.
    var counters: Lockout.Counters
    var index: Verification.Index
    var resets: Store<string, UserId>
    var blacklist: Blacklist
    // What decoding with the signing key yields.
    var signed: Signed
    // History.
    ghost var clock: int
    ghost var chains: Chains
    ghost var everUsers: set<UserId>
    ghost var everMailed: set<string>

    ghost function Abs(): State
      reads this
    {
      State(users, links, tokens, counters, index, resets, blacklist, clock, signed, chains, everUsers, everMailed)
    }

    ghost predicate Valid()
      reads this
    {
      Inv(Abs())
    }

    constructor ()
      ensures Valid() && Abs() == INITIAL
    {
      users, links, tokens := map[], {}, map[];
      counters, index, resets, blacklist := map[], Verification.EMPTY, map[], map[];
      signed, clock, chains, everUsers, everMailed := map[], 0, map[], {}, {};
      new;
      InitialSound();
    }

    // ----- Queries -----

    method FindByEmail(email: string) returns (r: Option<UserId>)
      requires AccountsSound(users, links, everUsers)
      ensures r == FindUser(users, email)
    {
      r := None;
      var rest := users.Keys;
      while rest != {}
        invariant rest <= users.Keys
        invariant r.None?
        invariant forall u :: u in users && u !in rest ==> users[u].email != email
        decreases rest
      {
        var u :| u in rest;
        if users[u].email == email {
          return Some(u);
        }
        rest := rest - {u};
      }
    }

    method FindBySubject(subject: string) returns (r: Option<UserId>)
      requires AccountsSound(users, links, everUsers)
      ensures r == LinkedUser(links, subject)
    {
      r := None;
      var rest := links;
      while rest != {}
        invariant rest <= links
        invariant r.None?
        invariant forall l :: l in links && l !in rest ==> l.subject != subject
        decreases rest
      {
        var l :| l in rest;
        if l.subject == subject {
          return Some(l.user);
        }
        rest := rest - {l};
      }
    }

    /** Whether the unique constraint on provider and user would be violated. */
    method HasLink(user: UserId) returns (taken: bool)
      ensures taken <==> exists l :: l in links && l.user == user
    {
      taken := false;
      var rest := links;
      while rest != {}
        invariant rest <= links
        invariant taken <==> exists l :: l in links && l !in rest && l.user == user
        decreases rest
      {
        var l :| l in rest;
        taken := taken || l.user == user;
        rest := rest - {l};
      }
    }

    // ----- Bulk statements -----

    /** UPDATE of one family's unrevoked rows; the result is the row count. */
    method RevokeFamilyRows(family: Family) returns (count: nat)
      modifies `tokens
      ensures tokens == RevokeFamily(old(tokens), family)
      ensures count > 0 <==> HasUnrevoked(old(tokens), family)
    {
      ghost var before := tokens;
      var rest := tokens.Keys;
      count := 0;
      while rest != {}
        invariant rest <= tokens.Keys == before.Keys
        invariant forall h :: h in rest ==> tokens[h] == before[h]
        invariant forall h :: h in before && h !in rest ==>
                    tokens[h] == if before[h].family == family then Revoke(before[h]) else before[h]
        invariant count > 0 <==>
                  exists h :: h in before && h !in rest && before[h].family == family && !before[h].revoked
        decreases rest
      {
        var h :| h in rest;
        if tokens[h].family == family && !tokens[h].revoked {
          tokens := tokens[h := Revoke(tokens[h])];
          count := count + 1;
        }
        rest := rest - {h};
      }
    }

    /** UPDATE of a user's active rows; the result is the row count. */
    method RevokeActiveRows(user: UserId, now: int) returns (count: nat)
      modifies `tokens
      ensures tokens == RevokeActive(old(tokens), user, now)
      ensures count == |ActiveSessions(old(tokens), user, now)|
    {
      ghost var before := tokens;
      ghost var done: set<string> := {};
      var rest := tokens.Keys;
      count := 0;
      while rest != {}
        invariant rest <= tokens.Keys == before.Keys
        invariant forall h :: h in rest ==> tokens[h] == before[h]
        invariant forall h :: h in before && h !in rest ==>
                    tokens[h] == if Active(before[h], user, now) then Revoke(before[h]) else before[h]
        invariant done == set h | h in before && h !in rest && Active(before[h], user, now)
        invariant count == |done|
        decreases rest
      {
        var h :| h in rest;
        if Active(tokens[h], user, now) {
          tokens := tokens[h := Revoke(tokens[h])];
          count := count + 1;
          done := done + {h};
        }
        rest := rest - {h};
      }
      assert done == ActiveSessions(before, user, now);
    }

    /** DELETE of a user's rows. */
    method DeleteRowsOf(user: UserId)
      modifies `tokens
      ensures tokens == WithoutUser(old(tokens), user)
    {
      ghost var before := tokens;
      var rest := tokens.Keys;
      while rest != {}
        invariant rest <= before.Keys
        invariant rest <= tokens.Keys <= before.Keys
        invariant forall h :: h in tokens ==> tokens[h] == before[h]
        invariant forall h :: h in before && h !in rest ==> (h in tokens <==> before[h].user != user)
        decreases rest
      {
        var h :| h in rest;
        if tokens[h].user == user {
          tokens := tokens - {h};
        }
        rest := rest - {h};
      }
    }

    method DeleteLinksOf(user: UserId)
      modifies `links
      ensures links == set l | l in old(links) && l.user != user
    {
      ghost var before := links;
      var rest := links;
      while rest != {}
        invariant rest <= links <= before
        invariant forall l :: l in before && l !in rest ==> (l in links <==> l.user != user)
        decreases rest
      {
        var l :| l in rest;
        if l.user == user {
          links := links - {l};
        }
        rest := rest - {l};
      }
    }

    /** The user with the e-mail, if the password check passes. */
    method Authenticate(email: string, password: string) returns (user: Option<UserId>)
      requires AccountsSound(users, links, everUsers)
      ensures user.Some? <==> CredentialsPass(users, email, password)
      ensures user.Some? ==> user.value in users && user == FindUser(users, email)
    {
      hide FindUser;
      user := FindByEmail(email);
      if user.Some? && users[user.value].password != Some(password) {
        user := None;
      }
    }

    // ----- Lockout -----

    method CheckLockout(email: string, now: int) returns (locked: bool)
      ensures locked == Lockout.Locked(counters, email, now)
    {
      var attempts := Get(counters, email, now);
      locked := attempts.Some? && attempts.value >= MAX_LOGIN_ATTEMPTS;
    }

    method IncrementFailedAttempts(email: string, now: int) returns (count: int)
      modifies `counters
      ensures counters == Lockout.Incremented(old(counters), email, now)
      ensures count == Lockout.FailureCount(old(counters), email, now)
    {
      var current := Get(counters, email, now);
      if current.Some? {
        count := current.value + 1;
        counters := counters[email := Entry(count, counters[email].expiresAt)];
      } else {
        count := 1;
        counters := counters[email := Entry(count, None)];
      }
      if count == 1 {
        counters := counters[email := Entry(count, Some(now + LOCKOUT_WINDOW))];
      }
    }

    /** A failed password check: counted, and answered by what the count has become. */
    method RecordFailure(email: string, now: int) returns (reply: Reply)
      modifies `counters
      ensures Abs() == old(Abs()).(counters := Lockout.Incremented(old(counters), email, now))
      ensures reply == Failed(if Lockout.FailureCount(old(counters), email, now) >= MAX_LOGIN_ATTEMPTS
                              then AccountLocked else InvalidCredentials)
    {
      hide Lockout.Incremented, Lockout.FailureCount;
      var attempts := IncrementFailedAttempts(email, now);
      reply := Failed(if attempts >= MAX_LOGIN_ATTEMPTS then AccountLocked else InvalidCredentials);
    }

    method ResetAttempts(email: string)
      modifies `counters
      ensures Abs() == old(Abs()).(counters := Delete(old(counters), email))
    {
      counters := counters - {email};
    }

    // ----- Tokens -----

    method BlacklistAccessToken(cookie: Option<string>, now: int)
      modifies `blacklist
      ensures Abs() == PutOnBlacklist(old(Abs()), cookie, now)
    {
      if cookie.None? || cookie.value !in signed {
        return;
      }
      var c := signed[cookie.value];
      if c.jti.None? || c.jti.value == "" || c.exp.None? || c.exp.value == 0 {
        return;
      }
      var remaining := c.exp.value - Seconds(now);
      if remaining > 0 {
        blacklist := SetEx(blacklist, c.jti.value, (), now, remaining * SECOND);
      }
    }

    /** Mints a pair of tokens and inserts the row of a new family. */
    method Open(user: UserId, g: Grant, now: int)
      modifies `tokens, `signed, `chains
      ensures Abs() == OpenSession(old(Abs()), user, g, now)
    {
      signed := MintRefresh(signed, user, g.refresh, now);
      signed := MintAccess(signed, user, g.access, now);
      tokens := tokens[g.refresh := Row(user, g.family, now + REFRESH_TOKEN_LIFETIME, false, Some(now))];
      chains := chains[g.family := Chain(user, [g.refresh])];
    }

    /** Spends the presented row and inserts its successor in the same family. */
    method RotateRow(token: string, renewal: Renewal, now: int)
      requires token in tokens
      modifies `tokens, `signed, `chains
      ensures Abs() == Rotate(old(Abs()), token, renewal, now)
    {
      hide MintAccess, MintRefresh;
      var row := tokens[token];
      tokens := tokens[token := row.(revoked := true, lastUsed := Some(now))];
      signed := MintRefresh(signed, row.user, renewal.refresh, now);
      tokens := tokens[renewal.refresh := Row(row.user, row.family, now + REFRESH_TOKEN_LIFETIME, false, Some(now))];
      signed := MintAccess(signed, row.user, renewal.access, now);
      if row.family in chains {
        chains := chains[row.family := chains[row.family].(hashes := chains[row.family].hashes + [renewal.refresh])];
      }
    }

    method RevokePreviousVerification(user: UserId, now: int)
      modifies `index
      ensures index == Verification.RevokePrevious(old(index), user, now)
    {
      var last := Get(index.byUser, user, now);
      if last.Some? {
        index := index.(byHash := Delete(index.byHash, last.value));
        index := index.(byUser := Delete(index.byUser, user));
      }
    }

    method SendVerificationToken(user: UserId, mailed: string, now: int)
      modifies `index, `everMailed
      ensures Abs() == SendVerification(old(Abs()), user, mailed, now)
    {
      RevokePreviousVerification(user, now);
      index := index.(byHash := SetEx(index.byHash, mailed, user, now, VERIFICATION_TOKEN_TTL));
      index := index.(byUser := SetEx(index.byUser, user, mailed, now, VERIFICATION_TOKEN_TTL));
      everMailed := everMailed + {mailed};
    }

    // ----- Service calls -----

    method SignUp(email: string, password: string, newUser: UserId, mailed: string, now: int) returns (reply: Reply)
      requires Valid() && Enabled(Abs(), Call.SignUp(now, email, password, newUser, mailed))
      modifies this
      ensures var c := Call.SignUp(now, email, password, newUser, mailed);
              Abs() == Next(old(Abs()), c) && reply == ReplyTo(old(Abs()), c)
      ensures Valid()
    {
      hide Inv, Enabled, DoSignUp;
      SignUpUnfolds(Abs(), email, password, newUser, mailed, now);
      hide Next, ReplyTo, AccountsSound;
      CallKeepsInv(Abs(), Call.SignUp(now, email, password, newUser, mailed));
      AccountsAreSound(Abs());
      clock := now;
      reply := Register(email, password, newUser, mailed, now);
    }

    method Register(email: string, password: string, newUser: UserId, mailed: string, now: int) returns (reply: Reply)
      requires AccountsSound(users, links, everUsers)
      modifies `users, `everUsers, `index, `everMailed
      ensures (Abs(), reply) == DoSignUp(old(Abs()), email, password, newUser, mailed, now)
    {
      hide AccountsSound, FindUser, SendVerification;
      var existing := FindByEmail(email);
      if existing.Some? {
        return Failed(EmailConflict);
      }
      users := users[newUser := User(email, Some(password), false)];
      everUsers := everUsers + {newUser};
      SendVerificationToken(newUser, mailed, now);
      return Done;
    }

    method ResendVerification(email: string, mailed: string, now: int) returns (reply: Reply)
      requires Valid() && Enabled(Abs(), Call.ResendVerification(now, email, mailed))
      modifies this
      ensures var c := Call.ResendVerification(now, email, mailed);
              Abs() == Next(old(Abs()), c) && reply == ReplyTo(old(Abs()), c)
      ensures Valid()
    {
      hide Inv, Enabled, DoResend;
      ResendUnfolds(Abs(), email, mailed, now);
      hide Next, ReplyTo, AccountsSound;
      CallKeepsInv(Abs(), Call.ResendVerification(now, email, mailed));
      AccountsAreSound(Abs());
      clock := now;
      reply := SendAgain(email, mailed, now);
    }

    method SendAgain(email: string, mailed: string, now: int) returns (reply: Reply)
      requires AccountsSound(users, links, everUsers)
      modifies `index, `everMailed
      ensures (Abs(), reply) == DoResend(old(Abs()), email, mailed, now)
    {
      hide AccountsSound, FindUser, SendVerification;
      var user := FindByEmail(email);
      if user.None? {
        return Done;
      }
      if users[user.value].verified {
        return Failed(AlreadyVerified);
      }
      SendVerificationToken(user.value, mailed, now);
      return Done;
    }

    /** `commits` says whether the database accepts the transaction. */
    method VerifyEmail(mailed: string, g: Grant, commits: bool, now: int) returns (reply: Reply)
      requires Valid() && Enabled(Abs(), Call.VerifyEmail(now, mailed, g, commits))
      modifies this
      ensures var c := Call.VerifyEmail(now, mailed, g, commits);
              Abs() == Next(old(Abs()), c) && reply == ReplyTo(old(Abs()), c)
      ensures Valid()
    {
      hide Inv, Enabled, DoVerifyEmail;
      VerifyEmailUnfolds(Abs(), mailed, g, commits, now);
      hide Next, ReplyTo;
      CallKeepsInv(Abs(), Call.VerifyEmail(now, mailed, g, commits));
      clock := now;
      reply := RedeemVerification(mailed, g, commits, now);
    }

    method RedeemVerification(mailed: string, g: Grant, commits: bool, now: int) returns (reply: Reply)
      modifies `users, `index, `tokens, `signed, `chains
      ensures (Abs(), reply) == DoVerifyEmail(old(Abs()), mailed, g, commits, now)
    {
      hide OpenSession;
      var user := Get(index.byHash, mailed, now);
      index := index.(byHash := Delete(index.byHash, mailed));
      if user.None? || user.value !in users {
        return Failed(TokenExpired);
      }
      if users[user.value].verified {
        return Failed(AlreadyVerified);
      }
      if !commits {
        return Failed(DatabaseFailure);
      }
      users := users[user.value := users[user.value].(verified := true)];
      Open(user.value, g, now);
      return Opened(user.value, g.refresh, g.access);
    }

    method SignIn(email: string, password: string, g: Grant, now: int) returns (reply: Reply)
      requires Valid() && Enabled(Abs(), Call.SignIn(now, email, password, g))
      modifies this
      ensures var c := Call.SignIn(now, email, password, g);
              Abs() == Next(old(Abs()), c) && reply == ReplyTo(old(Abs()), c)
      ensures Valid()
    {
      hide Inv, Enabled, DoSignIn;
      SignInUnfolds(Abs(), email, password, g, now);
      hide Next, ReplyTo, AccountsSound;
      CallKeepsInv(Abs(), Call.SignIn(now, email, password, g));
      AccountsAreSound(Abs());
      clock := now;
      reply := CheckPassword(email, password, g, now);
    }

    method CheckPassword(email: string, password: string, g: Grant, now: int) returns (reply: Reply)
      requires AccountsSound(users, links, everUsers)
      modifies `counters, `tokens, `signed, `chains
      ensures (Abs(), reply) == DoSignIn(old(Abs()), email, password, g, now)
    {
      hide AccountsSound, FindUser, OpenSession, CredentialsPass;
      hide Lockout.Incremented, Lockout.FailureCount, Lockout.Locked;
      var locked := CheckLockout(email, now);
      if locked {
        return Failed(AccountLocked);
      }
      var user := Authenticate(email, password);
      if user.None? {
        reply := RecordFailure(email, now);
        return;
      }
      reply := AdmitUser(email, user.value, g, now);
    }

    /** After a password check that passed. */
    method AdmitUser(email: string, user: UserId, g: Grant, now: int) returns (reply: Reply)
      requires user in users
      modifies `counters, `tokens, `signed, `chains
      ensures var s' := old(Abs()).(counters := Delete(old(counters), email));
              if old(users)[user].verified then
                Abs() == OpenSession(s', user, g, now) && reply == Opened(user, g.refresh, g.access)
              else
                Abs() == s' && reply == Failed(EmailNotVerified)
    {
      hide OpenSession;
      ResetAttempts(email);
      if !users[user].verified {
        return Failed(EmailNotVerified);
      }
      Open(user, g, now);
      return Opened(user, g.refresh, g.access);
    }

    method FindOrCreateGoogleUser(subject: string, email: string, newUser: UserId) returns (r: Result<UserId, Error>)
      requires AccountsSound(users, links, everUsers)
      modifies `users, `links, `everUsers
      ensures var (after, user) := UpsertGoogleUser(old(Abs()), subject, email, newUser);
              Abs() == after && r == user
    {
      hide FindUser, LinkedUser;
      var linked := FindBySubject(subject);
      if linked.Some? {
        return if linked.value in users then Success(linked.value) else Failure(MissingUser);
      }
      var user := FindByEmail(email);
      if user.None? {
        users := users[newUser := User(email, None, true)];
        links := links + {Link(subject, newUser)};
        everUsers := everUsers + {newUser};
        return Success(newUser);
      }
      var u := user.value;
      if users[u].password.Some? && !users[u].verified {
        return Failure(GoogleConflict);
      }
      var taken := HasLink(u);
      if taken {
        return Failure(ConstraintViolation);
      }
      users := users[u := users[u].(verified := true)];
      links := links + {Link(subject, u)};
      return Success(u);
    }

    method GoogleCallback(subject: string, email: string, newUser: UserId, g: Grant, now: int) returns (reply: Reply)
      requires Valid() && Enabled(Abs(), Call.GoogleCallback(now, subject, email, newUser, g))
      modifies this
      ensures var c := Call.GoogleCallback(now, subject, email, newUser, g);
              Abs() == Next(old(Abs()), c) && reply == ReplyTo(old(Abs()), c)
      ensures Valid()
    {
      hide Inv, FindUser, LinkedUser, Enabled, OpenSession, UpsertGoogleUser;
      CallKeepsInv(Abs(), Call.GoogleCallback(now, subject, email, newUser, g));
      AccountsAreSound(Abs());
      clock := now;
      var user := FindOrCreateGoogleUser(subject, email, newUser);
      match user
      case Failure(error) => return Failed(error);
      case Success(u) =>
        Open(u, g, now);
        return Opened(u, g.refresh, g.access);
    }

    method RefreshSession(token: string, cookie: Option<string>, renewal: Renewal, now: int) returns (reply: Reply)
      requires Valid() && Enabled(Abs(), Refresh(now, token, cookie, renewal))
      modifies this
      ensures var c := Refresh(now, token, cookie, renewal);
              Abs() == Next(old(Abs()), c) && reply == ReplyTo(old(Abs()), c)
      ensures Valid()
    {
      hide Inv, Enabled, DoRefresh;
      RefreshUnfolds(Abs(), token, cookie, renewal, now);
      hide Next, ReplyTo;
      CallKeepsInv(Abs(), Refresh(now, token, cookie, renewal));
      clock := now;
      reply := RotateOrDetectReuse(token, cookie, renewal, now);
    }

    method RotateOrDetectReuse(token: string, cookie: Option<string>, renewal: Renewal, now: int) returns (reply: Reply)
      modifies `tokens, `signed, `chains, `blacklist
      ensures (Abs(), reply) == DoRefresh(old(Abs()), token, cookie, renewal, now)
    {
      hide RevokeFamily, HasUnrevoked, BlacklistIfValid, Rotate;
      if token !in tokens {
        return Failed(InvalidRefreshToken);
      }
      var row := tokens[token];
      if row.revoked {
        if row.lastUsed.Some? {
          var delta := now - row.lastUsed.value;
          if delta <= REFRESH_REUSE_GRACE {
            return Failed(InvalidRefreshToken);
          }
        }
        var count := RevokeFamilyRows(row.family);
        return ReuseDetected(row.family, count > 0 && row.user in users);
      }
      if row.expiresAt < now || row.user !in users {
        return Failed(InvalidRefreshToken);
      }
      BlacklistAccessToken(cookie, now);
      RotateRow(token, renewal, now);
      return Rotated(row.user, renewal.refresh, renewal.access);
    }

    /** Revokes the presented token, then blacklists the access token. */
    method EndSession(refresh: Option<string>, cookie: Option<string>, now: int)
      modifies `tokens, `blacklist
      ensures Abs() == DoLogout(old(Abs()), refresh, cookie, now)
    {
      hide BlacklistIfValid;
      if refresh.Some? && refresh.value in tokens && !tokens[refresh.value].revoked {
        tokens := tokens[refresh.value := Revoke(tokens[refresh.value])];
      }
      assert tokens == RevokeToken(old(Abs()), refresh).tokens;
      BlacklistAccessToken(cookie, now);
    }

    method LogoutSession(refresh: Option<string>, cookie: Option<string>, now: int) returns (reply: Reply)
      requires Valid() && Enabled(Abs(), Logout(now, refresh, cookie))
      modifies this
      ensures var c := Logout(now, refresh, cookie);
              Abs() == Next(old(Abs()), c) && reply == ReplyTo(old(Abs()), c)
      ensures Valid()
    {
      hide Inv, FindUser, LinkedUser, Enabled, DoLogout;
      CallKeepsInv(Abs(), Logout(now, refresh, cookie));
      clock := now;
      EndSession(refresh, cookie, now);
      return Done;
    }

    method RevokeAllUserSessions(user: UserId, cookie: Option<string>, now: int) returns (reply: Reply)
      requires Valid() && Enabled(Abs(), LogoutAll(now, user, cookie))
      modifies this
      ensures var c := LogoutAll(now, user, cookie);
              Abs() == Next(old(Abs()), c) && reply == ReplyTo(old(Abs()), c)
      ensures Valid()
    {
      hide Inv, FindUser, LinkedUser, Enabled, RevokeActive, ActiveSessions, BlacklistIfValid;
      CallKeepsInv(Abs(), LogoutAll(now, user, cookie));
      clock := now;
      var count := RevokeActiveRows(user, now);
      BlacklistAccessToken(cookie, now);
      return SessionsRevoked(count);
    }

    method RequestPasswordReset(email: string, mailed: string, now: int) returns (reply: Reply)
      requires Valid() && Enabled(Abs(), RequestReset(now, email, mailed))
      modifies this
      ensures var c := RequestReset(now, email, mailed);
              Abs() == Next(old(Abs()), c) && reply == ReplyTo(old(Abs()), c)
      ensures Valid()
    {
      hide Inv, Enabled, DoRequestReset;
      RequestResetUnfolds(Abs(), email, mailed, now);
      hide Next, ReplyTo, AccountsSound;
      CallKeepsInv(Abs(), RequestReset(now, email, mailed));
      AccountsAreSound(Abs());
      clock := now;
      reply := SendReset(email, mailed, now);
    }

    method SendReset(email: string, mailed: string, now: int) returns (reply: Reply)
      requires AccountsSound(users, links, everUsers)
      modifies `resets, `everMailed
      ensures (Abs(), reply) == DoRequestReset(old(Abs()), email, mailed, now)
    {
      hide AccountsSound, FindUser;
      var user := FindByEmail(email);
      if user.None? {
        return Done;
      }
      resets := SetEx(resets, mailed, user.value, now, PASSWORD_RESET_TOKEN_TTL);
      everMailed := everMailed + {mailed};
      return Done;
    }

    method ResetPassword(mailed: string, password: string, now: int) returns (reply: Reply)
      requires Valid() && Enabled(Abs(), Call.ResetPassword(now, mailed, password))
      modifies this
      ensures var c := Call.ResetPassword(now, mailed, password);
              Abs() == Next(old(Abs()), c) && reply == ReplyTo(old(Abs()), c)
      ensures Valid()
    {
      hide Inv, Enabled, DoResetPassword;
      ResetPasswordUnfolds(Abs(), mailed, password, now);
      hide Next, ReplyTo;
      CallKeepsInv(Abs(), Call.ResetPassword(now, mailed, password));
      clock := now;
      reply := CompleteReset(mailed, password, now);
    }

    method CompleteReset(mailed: string, password: string, now: int) returns (reply: Reply)
      modifies `users, `tokens, `resets
      ensures (Abs(), reply) == DoResetPassword(old(Abs()), mailed, password, now)
    {
      hide WithoutUser;
      var user := Get(resets, mailed, now);
      resets := Delete(resets, mailed);
      if user.None? || user.value !in users {
        return Failed(InvalidResetToken);
      }
      users := users[user.value := users[user.value].(password := Some(password))];
      DeleteRowsOf(user.value);
      return Done;
    }

    method ChangePassword(
      user: UserId, current: string, password: string, refresh: Option<string>, cookie: Option<string>, now: int)
      returns (reply: Reply)
      requires Valid() && Enabled(Abs(), Call.ChangePassword(now, user, current, password, refresh, cookie))
      modifies this
      ensures var c := Call.ChangePassword(now, user, current, password, refresh, cookie);
              Abs() == Next(old(Abs()), c) && reply == ReplyTo(old(Abs()), c)
      ensures Valid()
    {
      hide Inv, FindUser, LinkedUser, Enabled, DoLogout;
      CallKeepsInv(Abs(), Call.ChangePassword(now, user, current, password, refresh, cookie));
      clock := now;
      if user !in users {
        return Failed(MissingUser);
      }
      if users[user].password != Some(current) {
        return Failed(InvalidCredentials);
      }
      users := users[user := users[user].(password := Some(password))];
      EndSession(refresh, cookie, now);
      return Done;
    }

    method UpdateProfile(user: UserId, newEmail: Option<string>, now: int) returns (reply: Reply)
      requires Valid() && Enabled(Abs(), Call.UpdateProfile(now, user, newEmail))
      modifies this
      ensures var c := Call.UpdateProfile(now, user, newEmail);
              Abs() == Next(old(Abs()), c) && reply == ReplyTo(old(Abs()), c)
      ensures Valid()
    {
      hide Inv, FindUser, LinkedUser, Enabled;
      UpdateProfileUnfolds(Abs(), user, newEmail, now);
      hide Next, ReplyTo;
      CallKeepsInv(Abs(), Call.UpdateProfile(now, user, newEmail));
      AccountsAreSound(Abs());
      clock := now;
      if user !in users {
        return Failed(MissingUser);
      }
      if newEmail.None? {
        return Done;
      }
      var holder := FindByEmail(newEmail.value);
      if holder.Some? && holder.value != user {
        return Failed(ConstraintViolation);
      }
      users := users[user := users[user].(email := newEmail.value)];
      return Done;
    }

    method DeleteProfile(user: UserId, refresh: Option<string>, cookie: Option<string>, now: int) returns (reply: Reply)
      requires Valid() && Enabled(Abs(), Call.DeleteProfile(now, user, refresh, cookie))
      modifies this
      ensures var c := Call.DeleteProfile(now, user, refresh, cookie);
              Abs() == Next(old(Abs()), c) && reply == ReplyTo(old(Abs()), c)
      ensures Valid()
    {
      hide Inv, FindUser, LinkedUser, Enabled, DoLogout, WithoutUser;
      CallKeepsInv(Abs(), Call.DeleteProfile(now, user, refresh, cookie));
      clock := now;
      users := users - {user};
      DeleteLinksOf(user);
      DeleteRowsOf(user);
      EndSession(refresh, cookie, now);
      return Done;
    }
  }
}
