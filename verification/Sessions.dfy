/**
 Accounts, Google links, refresh-token families and the Redis keys around them,
 as one state and one step for each service call.

 Each call happens at its own instant and is atomic. Random identifiers are
 arguments of the call that draws them.
 */
module Sessions {
  import opened Prelude
  import opened Redis
  import opened Settings
  import opened AccessTokens
  import Lockout
  import Verification

  type Family = nat

  /** Passwords stand for their hashes: equal exactly when verification passes. */
  datatype User = User(email: string, password: Option<string>, verified: bool)

  /** An authentication-provider row for Google. */
  datatype Link = Link(subject: string, user: UserId)

  /** A refresh-token row; the key of its table is the token itself, which stands for its hash. */
  datatype Row = Row(user: UserId, family: Family, expiresAt: int, revoked: bool, lastUsed: Option<int>)

  type Tokens = map<string, Row>

  /** History of a family: who it was opened for and the tokens it went through, in order. */
  datatype Chain = Chain(owner: UserId, hashes: seq<string>)

  datatype State = State(
    users: map<UserId, User>,
    links: set<Link>,
    tokens: Tokens,
    counters: Lockout.Counters,
    index: Verification.Index,
    resets: Store<string, UserId>,
    blacklist: Blacklist,
    clock: int,
    // Facts about the past that no table holds.
    signed: Signed,
    chains: map<Family, Chain>,
    everUsers: set<UserId>,
    everMailed: set<string>)

  const INITIAL := State(map[], {}, map[], map[], Verification.EMPTY, map[], map[], 0, map[], map[], {}, {})

  /** The identifiers drawn when a session is opened, and when one is rotated. */
  datatype Grant = Grant(family: Family, refresh: string, access: string)
  datatype Renewal = Renewal(refresh: string, access: string)

  datatype Call =
    | SignUp(at: int, email: string, password: string, newUser: UserId, mailed: string)
    | ResendVerification(at: int, email: string, mailed: string)
    | VerifyEmail(at: int, mailed: string, grant: Grant, commits: bool)
    | SignIn(at: int, email: string, password: string, grant: Grant)
    | GoogleCallback(at: int, subject: string, email: string, newUser: UserId, grant: Grant)
    | Refresh(at: int, token: string, cookie: Option<string>, renewal: Renewal)
    | Logout(at: int, refresh: Option<string>, cookie: Option<string>)
    | LogoutAll(at: int, user: UserId, cookie: Option<string>)
    | RequestReset(at: int, email: string, mailed: string)
    | ResetPassword(at: int, mailed: string, password: string)
    | ChangePassword(at: int, user: UserId, current: string, password: string,
                     refresh: Option<string>, cookie: Option<string>)
    | UpdateProfile(at: int, user: UserId, newEmail: Option<string>)
    | DeleteProfile(at: int, user: UserId, refresh: Option<string>, cookie: Option<string>)

  datatype Error =
    | EmailConflict | AlreadyVerified | EmailNotVerified | TokenExpired | DatabaseFailure
    | AccountLocked | InvalidCredentials
    | GoogleConflict | MissingUser | ConstraintViolation
    | InvalidRefreshToken | InvalidResetToken

  datatype Reply =
    | Done
    | Failed(error: Error)
    | Opened(user: UserId, refresh: string, access: string)
    | Rotated(user: UserId, refresh: string, access: string)
    | ReuseDetected(family: Family, alerted: bool)
    | SessionsRevoked(count: nat)

  // ----- Queries -----

  ghost function FindUser(users: map<UserId, User>, email: string): (r: Option<UserId>)
    ensures r.Some? ==> r.value in users && users[r.value].email == email
    ensures r.None? ==> forall u :: u in users ==> users[u].email != email
  {
    if exists u :: u in users && users[u].email == email then
      var u :| u in users && users[u].email == email;
      Some(u)
    else
      None
  }

  ghost function LinkedUser(links: set<Link>, subject: string): (r: Option<UserId>)
    ensures r.Some? ==> Link(subject, r.value) in links
    ensures r.None? ==> forall l :: l in links ==> l.subject != subject
  {
    if exists l :: l in links && l.subject == subject then
      var l :| l in links && l.subject == subject;
      Some(l.user)
    else
      None
  }

  /** A row that counts as an active session of the user. */
  predicate Active(row: Row, user: UserId, now: int) {
    row.user == user && !row.revoked && now < row.expiresAt
  }

  function ActiveSessions(tokens: Tokens, user: UserId, now: int): set<string> {
    set h | h in tokens && Active(tokens[h], user, now)
  }

  // ----- Statements on the token table -----

  function Revoke(row: Row): Row {
    row.(revoked := true)
  }

  function RevokeFamily(tokens: Tokens, family: Family): Tokens {
    map h | h in tokens :: if tokens[h].family == family then Revoke(tokens[h]) else tokens[h]
  }

  function RevokeActive(tokens: Tokens, user: UserId, now: int): Tokens {
    map h | h in tokens :: if Active(tokens[h], user, now) then Revoke(tokens[h]) else tokens[h]
  }

  function WithoutUser(tokens: Tokens, user: UserId): Tokens {
    map h | h in tokens && tokens[h].user != user :: tokens[h]
  }

  predicate HasUnrevoked(tokens: Tokens, family: Family) {
    exists h :: h in tokens && tokens[h].family == family && !tokens[h].revoked
  }

  // ----- Calls -----

  function OpenSession(s: State, user: UserId, g: Grant, now: int): State {
    s.(tokens := s.tokens[g.refresh := Row(user, g.family, now + REFRESH_TOKEN_LIFETIME, false, Some(now))],
       signed := MintAccess(MintRefresh(s.signed, user, g.refresh, now), user, g.access, now),
       chains := s.chains[g.family := Chain(user, [g.refresh])])
  }

  function PutOnBlacklist(s: State, cookie: Option<string>, now: int): State {
    s.(blacklist := BlacklistIfValid(s.blacklist, Decode(s.signed, cookie), now))
  }

  function SendVerification(s: State, user: UserId, mailed: string, now: int): State {
    s.(index := Verification.Issue(s.index, user, mailed, now), everMailed := s.everMailed + {mailed})
  }

  ghost function DoSignUp(s: State, email: string, password: string, newUser: UserId, mailed: string, now: int)
    : (State, Reply)
  {
    if FindUser(s.users, email).Some? then
      (s, Failed(EmailConflict))
    else
      var s' := s.(users := s.users[newUser := User(email, Some(password), false)],
                   everUsers := s.everUsers + {newUser});
      (SendVerification(s', newUser, mailed, now), Done)
  }

  ghost function DoResend(s: State, email: string, mailed: string, now: int): (State, Reply) {
    match FindUser(s.users, email)
    case None => (s, Done)
    case Some(u) =>
      if s.users[u].verified then (s, Failed(AlreadyVerified)) else (SendVerification(s, u, mailed, now), Done)
  }

  function DoVerifyEmail(s: State, mailed: string, g: Grant, commits: bool, now: int): (State, Reply) {
    var s' := s.(index := Verification.Redeem(s.index, mailed, now));
    match Verification.Lookup(s.index, mailed, now)
    case None => (s', Failed(TokenExpired))
    case Some(u) =>
      if u !in s.users then (s', Failed(TokenExpired))
      else if s.users[u].verified then (s', Failed(AlreadyVerified))
      else if !commits then (s', Failed(DatabaseFailure))
      else
        var verified := s'.(users := s.users[u := s.users[u].(verified := true)]);
        (OpenSession(verified, u, g, now), Opened(u, g.refresh, g.access))
  }

  /** Whether the password check of a sign-in passes. */
  ghost predicate CredentialsPass(users: map<UserId, User>, email: string, password: string) {
    var u := FindUser(users, email);
    u.Some? && users[u.value].password == Some(password)
  }

  ghost function DoSignIn(s: State, email: string, password: string, g: Grant, now: int): (State, Reply) {
    if Lockout.Locked(s.counters, email, now) then
      (s, Failed(AccountLocked))
    else if !CredentialsPass(s.users, email, password) then
      (s.(counters := Lockout.Incremented(s.counters, email, now)),
       Failed(if Lockout.FailureCount(s.counters, email, now) >= MAX_LOGIN_ATTEMPTS then AccountLocked
              else InvalidCredentials))
    else
      var u := FindUser(s.users, email).value;
      var s' := s.(counters := Delete(s.counters, email));
      if !s.users[u].verified then (s', Failed(EmailNotVerified))
      else (OpenSession(s', u, g, now), Opened(u, g.refresh, g.access))
  }

  /** Finds, links or creates the account a Google subject signs in to. */
  ghost function UpsertGoogleUser(s: State, subject: string, email: string, newUser: UserId)
    : (State, Result<UserId, Error>)
  {
    match LinkedUser(s.links, subject)
    case Some(u) => (s, if u in s.users then Success(u) else Failure(MissingUser))
    case None =>
      match FindUser(s.users, email)
      case None =>
        (s.(users := s.users[newUser := User(email, None, true)],
            links := s.links + {Link(subject, newUser)},
            everUsers := s.everUsers + {newUser}),
         Success(newUser))
      case Some(u) =>
        if s.users[u].password.Some? && !s.users[u].verified then
          (s, Failure(GoogleConflict))
        else if exists l :: l in s.links && l.user == u then
          (s, Failure(ConstraintViolation))
        else
          (s.(users := s.users[u := s.users[u].(verified := true)], links := s.links + {Link(subject, u)}),
           Success(u))
  }

  ghost function DoGoogleCallback(s: State, subject: string, email: string, newUser: UserId, g: Grant, now: int)
    : (State, Reply)
  {
    var (s', user) := UpsertGoogleUser(s, subject, email, newUser);
    match user
    case Failure(error) => (s', Failed(error))
    case Success(u) => (OpenSession(s', u, g, now), Opened(u, g.refresh, g.access))
  }

  /** A replay this soon after the row's last use is taken for a retry, not for reuse. */
  predicate WithinGrace(row: Row, now: int) {
    row.lastUsed.Some? && now - row.lastUsed.value <= REFRESH_REUSE_GRACE
  }

  function Longer(chain: Chain, hash: string): Chain {
    chain.(hashes := chain.hashes + [hash])
  }

  function Rotate(s: State, token: string, renewal: Renewal, now: int): State
    requires token in s.tokens
  {
    var row := s.tokens[token];
    var spent := row.(revoked := true, lastUsed := Some(now));
    var next := Row(row.user, row.family, now + REFRESH_TOKEN_LIFETIME, false, Some(now));
    s.(tokens := s.tokens[token := spent][renewal.refresh := next],
       signed := MintAccess(MintRefresh(s.signed, row.user, renewal.refresh, now), row.user, renewal.access, now),
       chains := if row.family in s.chains then s.chains[row.family := Longer(s.chains[row.family], renewal.refresh)]
                 else s.chains)
  }

  function DoRefresh(s: State, token: string, cookie: Option<string>, renewal: Renewal, now: int): (State, Reply) {
    if token !in s.tokens then
      (s, Failed(InvalidRefreshToken))
    else
      var row := s.tokens[token];
      if row.revoked then
        if WithinGrace(row, now) then
          (s, Failed(InvalidRefreshToken))
        else
          (s.(tokens := RevokeFamily(s.tokens, row.family)),
           ReuseDetected(row.family, HasUnrevoked(s.tokens, row.family) && row.user in s.users))
      else if row.expiresAt < now || row.user !in s.users then
        (s, Failed(InvalidRefreshToken))
      else
        (Rotate(PutOnBlacklist(s, cookie, now), token, renewal, now),
         Rotated(row.user, renewal.refresh, renewal.access))
  }

  function RevokeToken(s: State, refresh: Option<string>): State {
    if refresh.Some? && refresh.value in s.tokens
    then s.(tokens := s.tokens[refresh.value := Revoke(s.tokens[refresh.value])])
    else s
  }

  function DoLogout(s: State, refresh: Option<string>, cookie: Option<string>, now: int): State {
    PutOnBlacklist(RevokeToken(s, refresh), cookie, now)
  }

  function DoLogoutAll(s: State, user: UserId, cookie: Option<string>, now: int): (State, Reply) {
    (PutOnBlacklist(s.(tokens := RevokeActive(s.tokens, user, now)), cookie, now),
     SessionsRevoked(|ActiveSessions(s.tokens, user, now)|))
  }

  ghost function DoRequestReset(s: State, email: string, mailed: string, now: int): (State, Reply) {
    match FindUser(s.users, email)
    case None => (s, Done)
    case Some(u) =>
      (s.(resets := SetEx(s.resets, mailed, u, now, PASSWORD_RESET_TOKEN_TTL),
          everMailed := s.everMailed + {mailed}),
       Done)
  }

  function DoResetPassword(s: State, mailed: string, password: string, now: int): (State, Reply) {
    var s' := s.(resets := Delete(s.resets, mailed));
    match Get(s.resets, mailed, now)
    case None => (s', Failed(InvalidResetToken))
    case Some(u) =>
      if u !in s.users then (s', Failed(InvalidResetToken))
      else
        (s'.(users := s.users[u := s.users[u].(password := Some(password))],
             tokens := WithoutUser(s.tokens, u)),
         Done)
  }

  function DoChangePassword(
    s: State, user: UserId, current: string, password: string,
    refresh: Option<string>, cookie: Option<string>, now: int): (State, Reply)
  {
    if user !in s.users then (s, Failed(MissingUser))
    else if s.users[user].password != Some(current) then (s, Failed(InvalidCredentials))
    else
      var s' := s.(users := s.users[user := s.users[user].(password := Some(password))]);
      (DoLogout(s', refresh, cookie, now), Done)
  }

  predicate EmailTaken(users: map<UserId, User>, email: string, but: UserId) {
    exists u :: u in users && u != but && users[u].email == email
  }

  function DoUpdateProfile(s: State, user: UserId, newEmail: Option<string>): (State, Reply) {
    if user !in s.users then (s, Failed(MissingUser))
    else if newEmail.None? then (s, Done)
    else if EmailTaken(s.users, newEmail.value, user) then (s, Failed(ConstraintViolation))
    else (s.(users := s.users[user := s.users[user].(email := newEmail.value)]), Done)
  }

  /** Deleting the account cascades to its links and its tokens. */
  function DropUser(s: State, user: UserId): State {
    s.(users := s.users - {user},
       links := (set l | l in s.links && l.user != user),
       tokens := WithoutUser(s.tokens, user))
  }

  function DoDeleteProfile(s: State, user: UserId, refresh: Option<string>, cookie: Option<string>, now: int): State {
    DoLogout(DropUser(s, user), refresh, cookie, now)
  }

  ghost function Effect(s: State, c: Call): (State, Reply) {
    match c
    case SignUp(at, email, password, newUser, mailed) => DoSignUp(s, email, password, newUser, mailed, at)
    case ResendVerification(at, email, mailed) => DoResend(s, email, mailed, at)
    case VerifyEmail(at, mailed, grant, commits) => DoVerifyEmail(s, mailed, grant, commits, at)
    case SignIn(at, email, password, grant) => DoSignIn(s, email, password, grant, at)
    case GoogleCallback(at, subject, email, newUser, grant) => DoGoogleCallback(s, subject, email, newUser, grant, at)
    case Refresh(at, token, cookie, renewal) => DoRefresh(s, token, cookie, renewal, at)
    case Logout(at, refresh, cookie) => (DoLogout(s, refresh, cookie, at), Done)
    case LogoutAll(at, user, cookie) => DoLogoutAll(s, user, cookie, at)
    case RequestReset(at, email, mailed) => DoRequestReset(s, email, mailed, at)
    case ResetPassword(at, mailed, password) => DoResetPassword(s, mailed, password, at)
    case ChangePassword(at, user, current, password, refresh, cookie) =>
      DoChangePassword(s, user, current, password, refresh, cookie, at)
    case UpdateProfile(at, user, newEmail) => DoUpdateProfile(s, user, newEmail)
    case DeleteProfile(at, user, refresh, cookie) => (DoDeleteProfile(s, user, refresh, cookie, at), Done)
  }

  /** A call first finds its own instant on the clock. */
  function At(s: State, now: int): State {
    s.(clock := now)
  }

  ghost function Next(s: State, c: Call): State {
    Effect(At(s, c.at), c).0
  }

  ghost function ReplyTo(s: State, c: Call): Reply {
    Effect(At(s, c.at), c).1
  }

  // ----- Runs -----

  predicate FreshGrant(s: State, g: Grant) {
    && g.family !in s.chains
    && g.refresh !in s.signed && g.access !in s.signed && g.refresh != g.access
    && g.refresh != "" && g.access != ""
  }

  predicate FreshRenewal(s: State, r: Renewal) {
    && r.refresh !in s.signed && r.access !in s.signed && r.refresh != r.access
    && r.refresh != "" && r.access != ""
  }

  /** The clock advances and what the call draws at random was never drawn before. */
  predicate Enabled(s: State, c: Call) {
    && s.clock < c.at
    && match c {
         case SignUp(_, _, _, newUser, mailed) => newUser !in s.everUsers && mailed !in s.everMailed
         case ResendVerification(_, _, mailed) => mailed !in s.everMailed
         case VerifyEmail(_, _, grant, _) => FreshGrant(s, grant)
         case SignIn(_, _, _, grant) => FreshGrant(s, grant)
         case GoogleCallback(_, _, _, newUser, grant) => newUser !in s.everUsers && FreshGrant(s, grant)
         case Refresh(_, _, _, renewal) => FreshRenewal(s, renewal)
         case RequestReset(_, _, mailed) => mailed !in s.everMailed
         case _ => true
       }
  }

  ghost predicate Runnable(s: State, calls: seq<Call>)
    decreases |calls|
  {
    calls == [] || (Enabled(s, calls[0]) && Runnable(Next(s, calls[0]), calls[1..]))
  }

  ghost function Run(s: State, calls: seq<Call>): State
    decreases |calls|
  {
    if calls == [] then s else Run(Next(s, calls[0]), calls[1..])
  }

  /** States that service calls lead to, from empty stores. */
  ghost predicate Reachable(s: State) {
    exists calls: seq<Call> :: Runnable(INITIAL, calls) && s == Run(INITIAL, calls)
  }
}
