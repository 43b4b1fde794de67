/** What the lockout counter and the verification index guarantee over runs of service calls. */
module LoginTheorems {
  import opened Prelude
  import opened Redis
  import opened Settings
  import opened AccessTokens
  import opened Sessions
  import opened SessionInvariants
  import opened Footprints
  import Lockout
  import Verification

  // ----- Lockout -----

  /** The sign-ins of a run, as the lockout counter sees them. */
  ghost function Attempts(s: State, calls: seq<Call>): seq<Lockout.Attempt>
    decreases |calls|
  {
    if calls == [] then [] else
      (if calls[0].SignIn?
       then [Lockout.Attempt(calls[0].email, calls[0].at, CredentialsPass(s.users, calls[0].email, calls[0].password))]
       else [])
      + Attempts(Next(s, calls[0]), calls[1..])
  }

  /** A sign-in counts as a failed check, or as one that passed, exactly as its reply says. */
  lemma SignInFollowsLockout(s: State, c: Call)
    requires c.SignIn?
    ensures var a := Lockout.Attempt(c.email, c.at, CredentialsPass(s.users, c.email, c.password));
            var (after, outcome) := Lockout.Try(s.counters, a);
            && Next(s, c).counters == after
            && (outcome.Refused? ==> ReplyTo(s, c) == Failed(AccountLocked))
            && (outcome.Failed? ==> ReplyTo(s, c) == Failed(
                  if outcome.count >= MAX_LOGIN_ATTEMPTS then AccountLocked else InvalidCredentials))
            && (outcome.Passed? ==> ReplyTo(s, c).Opened? || ReplyTo(s, c) == Failed(EmailNotVerified))
  {}

  /** The counters of a run are those of its sign-ins alone. */
  lemma {:induction false} CountersFollowSignIns(s: State, calls: seq<Call>)
    requires Runnable(s, calls)
    ensures Run(s, calls).counters == Lockout.Run(s.counters, Attempts(s, calls))
    ensures Lockout.Chronological(Attempts(s, calls), s.clock)
    ensures Lockout.EndOf(Attempts(s, calls), s.clock) <= Run(s, calls).clock
    decreases |calls|
  {
    if calls != [] {
      var c := calls[0];
      var rest := Attempts(Next(s, c), calls[1..]);
      Framed(s, c);
      CountersFollowSignIns(Next(s, c), calls[1..]);
      if c.SignIn? {
        SignInFollowsLockout(s, c);
        hide Next, ReplyTo, Lockout.Try, CredentialsPass;
        var a := Lockout.Attempt(c.email, c.at, CredentialsPass(s.users, c.email, c.password));
        assert Attempts(s, calls) == [a] + rest;
        assert Attempts(s, calls)[1..] == rest;
      } else {
        Framed(s, c);
        hide Next, ReplyTo;
        assert Attempts(s, calls) == rest;
        assert rest != [] ==> Lockout.Chronological(rest[1..], rest[0].at);
      }
    }
  }

  /** The call checks a password for the e-mail, and the check fails. */
  ghost predicate FailedCheck(s: State, c: Call, email: string) {
    && c.SignIn? && c.email == email
    && (|| ReplyTo(s, c) == Failed(InvalidCredentials)
        || (ReplyTo(s, c) == Failed(AccountLocked) && !Lockout.Locked(s.counters, email, c.at)))
  }

  /** The call checks a password for the e-mail, and the check passes. */
  ghost predicate PassedCheck(s: State, c: Call, email: string) {
    c.SignIn? && c.email == email && (ReplyTo(s, c).Opened? || ReplyTo(s, c) == Failed(EmailNotVerified))
  }

  /** Failed password checks of a run for the e-mail at instants in [from, until). */
  ghost function FailedChecks(s: State, calls: seq<Call>, email: string, from: int, until: int): nat
    decreases |calls|
  {
    if calls == [] then 0 else
      (if FailedCheck(s, calls[0], email) && from <= calls[0].at < until then 1 else 0)
      + FailedChecks(Next(s, calls[0]), calls[1..], email, from, until)
  }

  ghost function PassedChecks(s: State, calls: seq<Call>, email: string): nat
    decreases |calls|
  {
    if calls == [] then 0 else
      (if PassedCheck(s, calls[0], email) then 1 else 0) + PassedChecks(Next(s, calls[0]), calls[1..], email)
  }

  /** The lockout module's counts are the counts over replies. */
  lemma {:induction false} ChecksAreLockoutOutcomes(s: State, calls: seq<Call>, email: string, from: int, until: int)
    ensures FailedChecks(s, calls, email, from, until)
            == Lockout.FailuresIn(s.counters, Attempts(s, calls), email, from, until)
    ensures PassedChecks(s, calls, email) == Lockout.ResetsOf(s.counters, Attempts(s, calls), email)
    decreases |calls|
  {
    if calls != [] {
      var c := calls[0];
      var rest := Attempts(Next(s, c), calls[1..]);
      ChecksAreLockoutOutcomes(Next(s, c), calls[1..], email, from, until);
      if c.SignIn? {
        SignInFollowsLockout(s, c);
        var a := Lockout.Attempt(c.email, c.at, CredentialsPass(s.users, c.email, c.password));
        assert Attempts(s, calls) == [a] + rest;
        assert Attempts(s, calls)[1..] == rest;
        hide Next, ReplyTo, CredentialsPass, Lockout.Incremented, Lockout.FailureCount;
      } else {
        Framed(s, c);
        hide Next, ReplyTo;
        assert Attempts(s, calls) == rest;
      }
    }
  }

  /**
   From any reachable state, over any run in which no password check for the
   e-mail passes, an interval of the lockout window's length holds at most
   2 * MAX_LOGIN_ATTEMPTS - 1 failed checks.
   */
  lemma FailedChecksPerWindow(s: State, calls: seq<Call>, email: string, from: int)
    requires Reachable(s) && Runnable(s, calls) && PassedChecks(s, calls, email) == 0
    ensures FailedChecks(s, calls, email, from, from + LOCKOUT_WINDOW) <= 2 * MAX_LOGIN_ATTEMPTS - 1
  {
    ReachableSound(s);
    CountersSound(s);
    CountersFollowSignIns(s, calls);
    ChecksAreLockoutOutcomes(s, calls, email, from, from + LOCKOUT_WINDOW);
    Lockout.FailuresWithinHeadroom(s.counters, Attempts(s, calls), email, s.clock, from);
  }

  lemma CountersSound(s: State)
    requires Inv(s)
    ensures Lockout.WellFormed(s.counters, s.clock)
  {
    hide FamiliesSound;
  }

  /** The attempts of a run are no earlier than its first call. */
  lemma AttemptsFromFirst(s: State, calls: seq<Call>)
    requires Runnable(s, calls) && calls != []
    ensures Lockout.Chronological(Attempts(s, calls), calls[0].at)
  {
    var c := calls[0];
    var rest := Attempts(Next(s, c), calls[1..]);
    Framed(s, c);
    CountersFollowSignIns(Next(s, c), calls[1..]);
    hide Next, CredentialsPass;
    if c.SignIn? {
      assert Attempts(s, calls)[1..] == rest;
    } else {
      assert Attempts(s, calls) == rest;
    }
  }

  /**
   From any reachable state, over any run that begins when the e-mail has no counter
   and in which no password check for it passes, one lifetime of its counter holds at
   most MAX_LOGIN_ATTEMPTS failed checks.
   */
  lemma FailedChecksPerLifetime(s: State, calls: seq<Call>, email: string)
    requires Reachable(s) && Runnable(s, calls) && PassedChecks(s, calls, email) == 0
    requires calls != [] && !Visible(s.counters, email, calls[0].at)
    ensures FailedChecks(s, calls, email, calls[0].at, calls[0].at + LOCKOUT_WINDOW) <= MAX_LOGIN_ATTEMPTS
  {
    var born := calls[0].at;
    ReachableSound(s);
    CountersSound(s);
    assert s.clock <= born;
    hide Inv, Next, Run, CredentialsPass, Enabled, Runnable;
    hide Attempts, FailedChecks, PassedChecks, Lockout.WellFormed, Lockout.Chronological;
    AttemptsFromFirst(s, calls);
    ChecksAreLockoutOutcomes(s, calls, email, born, born + LOCKOUT_WINDOW);
    Lockout.FailuresFromBirth(s.counters, Attempts(s, calls), email, s.clock, born);
  }

  // ----- Verification tokens -----

  /** What the call does to the verification index. */
  ghost function IndexCall(s: State, c: Call): Option<Verification.Call> {
    match c
    case SignUp(at, email, _, newUser, mailed) =>
      if FindUser(s.users, email).None? then Some(Verification.IssueTo(newUser, mailed, at)) else None
    case ResendVerification(at, email, mailed) =>
      var u := FindUser(s.users, email);
      if u.Some? && !s.users[u.value].verified then Some(Verification.IssueTo(u.value, mailed, at)) else None
    case VerifyEmail(at, mailed, _, _) => Some(Verification.RedeemAt(mailed, at))
    case _ => None
  }

  ghost function IndexCalls(s: State, calls: seq<Call>): seq<Verification.Call>
    decreases |calls|
  {
    if calls == [] then [] else
      (match IndexCall(s, calls[0]) case None => [] case Some(c) => [c]) + IndexCalls(Next(s, calls[0]), calls[1..])
  }

  lemma VerifyEmailRedeems(s: State, mailed: string, g: Grant, commits: bool)
    ensures DoVerifyEmail(s, mailed, g, commits, s.clock).0.index == Verification.Redeem(s.index, mailed, s.clock)
  {
    hide Verification.Redeem, Verification.Lookup, MintAccess, MintRefresh;
  }

  lemma IndexStep(s: State, c: Call)
    requires Enabled(s, c)
    ensures match IndexCall(s, c)
            case None => Next(s, c).index == s.index && s.everMailed <= Next(s, c).everMailed
            case Some(v) => && Next(s, c).index == Verification.Step(s.index, v)
                            && v.at == c.at
                            && (v.IssueTo? ==> v.hash !in s.everMailed)
                            && Verification.UsedAfter(v, s.everMailed) <= Next(s, c).everMailed
  {
    Framed(s, c);
    if c.VerifyEmail? {
      VerifyEmailRedeems(At(s, c.at), c.mailed, c.grant, c.commits);
      hide DoVerifyEmail, Verification.Redeem;
    } else if c.SignUp? || c.ResendVerification? {
      hide FindUser, Verification.Issue;
      hide DoVerifyEmail, DoSignIn, DoGoogleCallback, DoRefresh, DoLogout, DoLogoutAll, DoRequestReset;
      hide DoResetPassword, DoChangePassword, DoUpdateProfile, DoDeleteProfile;
    } else {
      hide Next;
    }
  }

  /** The index of a run is that of its sign-ups, resends and verifications alone. */
  lemma {:induction false} IndexFollowsMail(s: State, calls: seq<Call>)
    requires Runnable(s, calls)
    ensures Run(s, calls).index == Verification.Run(s.index, IndexCalls(s, calls))
    ensures Verification.Fresh(IndexCalls(s, calls), s.everMailed)
    decreases |calls|
  {
    if calls != [] {
      var c := calls[0];
      var rest := IndexCalls(Next(s, c), calls[1..]);
      IndexFollowsMail(Next(s, c), calls[1..]);
      IndexStep(s, c);
      match IndexCall(s, c)
      case None =>
        assert IndexCalls(s, calls) == rest;
        Verification.FreshOfFewer(rest, Next(s, c).everMailed, s.everMailed);
      case Some(v) =>
        assert IndexCalls(s, calls) == [v] + rest;
        assert IndexCalls(s, calls)[1..] == rest;
        Verification.FreshOfFewer(rest, Next(s, c).everMailed, Verification.UsedAfter(v, s.everMailed));
        hide Next, IndexCall, Verification.Step;
    }
  }

  /** How often verifying with the token finds a user. */
  ghost function Redemptions(s: State, calls: seq<Call>, mailed: string): nat
    decreases |calls|
  {
    if calls == [] then 0 else
      var c := calls[0];
      (if c.VerifyEmail? && c.mailed == mailed && Verification.Lookup(s.index, mailed, c.at).Some? then 1 else 0)
      + Redemptions(Next(s, c), calls[1..], mailed)
  }

  lemma {:induction false} RedemptionsAreSuccesses(s: State, calls: seq<Call>, mailed: string)
    requires Runnable(s, calls)
    ensures Redemptions(s, calls, mailed) == Verification.Successes(s.index, IndexCalls(s, calls), mailed)
    decreases |calls|
  {
    if calls != [] {
      var c := calls[0];
      var rest := IndexCalls(Next(s, c), calls[1..]);
      RedemptionsAreSuccesses(Next(s, c), calls[1..], mailed);
      IndexStep(s, c);
      match IndexCall(s, c)
      case None =>
        assert IndexCalls(s, calls) == rest;
      case Some(v) =>
        assert IndexCalls(s, calls) == [v] + rest;
        assert IndexCalls(s, calls)[1..] == rest;
        hide Next, Verification.Step;
    }
  }

  /** Over a whole run every verification token finds a user at most once. */
  lemma VerifiedAtMostOnce(calls: seq<Call>, mailed: string)
    requires Runnable(INITIAL, calls)
    ensures Redemptions(INITIAL, calls, mailed) <= 1
  {
    IndexFollowsMail(INITIAL, calls);
    RedemptionsAreSuccesses(INITIAL, calls, mailed);
    Verification.RedeemedOnce(IndexCalls(INITIAL, calls), mailed);
  }

  /** In every reachable state each user has at most one token that would verify them. */
  lemma OneRedeemableToken(s: State, h1: string, h2: string, now: int)
    requires Reachable(s) && s.clock <= now
    requires Verification.Lookup(s.index, h1, now).Some?
    requires Verification.Lookup(s.index, h1, now) == Verification.Lookup(s.index, h2, now)
    ensures h1 == h2
  {
    ReachableSound(s);
    assert Verification.Agree(s.index, s.clock) by { hide FamiliesSound; }
    assert Visible(s.index.byHash, h1, s.clock) && Visible(s.index.byHash, h2, s.clock);
  }

  /**
   The token that would verify a user is the last one sent to them: once a call sends
   one, with no later one sent, no other token finds that user, whatever calls follow.
   */
  lemma OnlyLatestVerifies(s: State, c: Call, calls: seq<Call>, user: UserId, hash: string, h: string, now: int)
    requires Reachable(s) && Enabled(s, c) && Runnable(Next(s, c), calls)
    requires IndexCall(s, c) == Some(Verification.IssueTo(user, hash, c.at))
    requires Verification.NoIssueTo(IndexCalls(Next(s, c), calls), user)
    requires Run(Next(s, c), calls).clock <= now
    requires Verification.Lookup(Run(Next(s, c), calls).index, h, now) == Some(user)
    ensures h == hash
  {
    var end := Run(Next(s, c), calls);
    ReachableSound(s);
    CallKeepsInv(s, c);
    RunKeepsInv(Next(s, c), calls);
    IndexStep(s, c);
    IndexFollowsMail(Next(s, c), calls);
    assert Verification.Agree(end.index, end.clock) by { hide FamiliesSound; }
    hide Inv, Next, Run, Runnable, IndexCall, IndexCalls;
    Verification.ReverseKeyKept(Next(s, c).index, IndexCalls(Next(s, c), calls), user, hash);
    assert Visible(end.index.byHash, h, end.clock);
  }

  // ----- Password-reset tokens -----

  /** Reset tokens come fresh, are kept account of, and never come back. */
  ghost predicate ResetsMoved(s: State, t: State) {
    && s.everMailed <= t.everMailed && t.resets.Keys <= t.everMailed
    && forall m :: m in t.resets && m in s.everMailed ==> m in s.resets
  }

  lemma RequestMoves(s: State, email: string, mailed: string)
    requires s.resets.Keys <= s.everMailed && mailed !in s.everMailed
    ensures ResetsMoved(s, DoRequestReset(s, email, mailed, s.clock).0)
  {
    hide FindUser;
  }

  lemma RedemptionMoves(s: State, mailed: string, password: string)
    requires s.resets.Keys <= s.everMailed
    ensures ResetsMoved(s, DoResetPassword(s, mailed, password, s.clock).0)
    ensures mailed !in DoResetPassword(s, mailed, password, s.clock).0.resets
  {
    hide WithoutUser;
  }

  lemma ResetsStep(s: State, c: Call)
    requires Enabled(s, c) && s.resets.Keys <= s.everMailed
    ensures s.everMailed <= Next(s, c).everMailed && Next(s, c).resets.Keys <= Next(s, c).everMailed
    ensures forall m :: m in Next(s, c).resets && m in s.everMailed ==> m in s.resets
    ensures c.ResetPassword? ==> c.mailed !in Next(s, c).resets
  {
    hide DoRequestReset, DoResetPassword;
    if c.RequestReset? {
      RequestMoves(At(s, c.at), c.email, c.mailed);
    } else if c.ResetPassword? {
      RedemptionMoves(At(s, c.at), c.mailed, c.password);
    } else {
      Framed(s, c);
      hide Next;
    }
  }

  /** How often resetting with the token finds a user. */
  ghost function Resets(s: State, calls: seq<Call>, mailed: string): nat
    decreases |calls|
  {
    if calls == [] then 0 else
      var c := calls[0];
      (if c.ResetPassword? && c.mailed == mailed && Get(s.resets, mailed, c.at).Some? then 1 else 0)
      + Resets(Next(s, c), calls[1..], mailed)
  }

  lemma {:induction false} ResetsBounded(s: State, calls: seq<Call>, mailed: string)
    requires Runnable(s, calls) && s.resets.Keys <= s.everMailed
    ensures Resets(s, calls, mailed) <= if mailed in s.everMailed && mailed !in s.resets then 0 else 1
    decreases |calls|
  {
    if calls != [] {
      var c := calls[0];
      ResetsStep(s, c);
      hide Next;
      ResetsBounded(Next(s, c), calls[1..], mailed);
    }
  }

  /** Over a whole run every password-reset token finds a user at most once. */
  lemma ResetAtMostOnce(calls: seq<Call>, mailed: string)
    requires Runnable(INITIAL, calls)
    ensures Resets(INITIAL, calls, mailed) <= 1
  {
    ResetsBounded(INITIAL, calls, mailed);
  }
}
