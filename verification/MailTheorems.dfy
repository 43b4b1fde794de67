/** What becomes of the tokens sent by mail, call by call and over whole runs. */
module MailTheorems {
  import opened Prelude
  import opened Redis
  import opened Settings
  import opened AccessTokens
  import opened Sessions
  import opened SessionInvariants
  import opened Footprints
  import opened CredentialTheorems
  import Verification

  // ----- Verification tokens -----

  /** The call sends the user a verification token. */
  ghost predicate Sends(s: State, c: Call, u: UserId) {
    || (c.SignUp? && c.newUser == u && Unused(s.users, c.email))
    || (c.ResendVerification? && u in s.users && s.users[u].email == c.email && !s.users[u].verified)
  }

  ghost predicate NamesAfter(s: State, c: Call, h: string, now: int, u: UserId, after: Verification.Index) {
    Names(after.byHash, h, now, u) <==>
      if Sends(s, c, u) then h == c.mailed && now < c.at + VERIFICATION_TOKEN_TTL
      else Names(s.index.byHash, h, now, u) && !(c.VerifyEmail? && c.mailed == h)
  }

  lemma IndexSound(s: State)
    requires Inv(s)
    ensures Verification.Agree(s.index, s.clock) && Verification.Within(s.index, s.everMailed)
  {
    hide FamiliesSound;
  }

  /** Issuing to a user drops every live token of theirs, and no one else's. */
  lemma IssueNames(
    ix: Verification.Index, v: UserId, mailed: string, at: int, clock: int, used: set<string>, h: string, now: int,
    u: UserId)
    requires Verification.Agree(ix, clock) && Verification.Within(ix, used) && mailed !in used
    requires clock <= at <= now
    ensures Names(Verification.Issue(ix, v, mailed, at).byHash, h, now, u) <==>
              if v == u then h == mailed && now < at + VERIFICATION_TOKEN_TTL else Names(ix.byHash, h, now, u)
  {
    if Names(ix.byHash, h, now, u) {
      assert Visible(ix.byHash, h, clock);
    }
  }

  lemma SignUpNames(s: State, c: Call, h: string, now: int, u: UserId)
    requires Inv(s) && Enabled(s, c) && c.at <= now && c.SignUp?
    ensures NamesAfter(s, c, h, now, u, Next(s, c).index)
  {
    IndexSound(s);
    var found := FindUser(s.users, c.email);
    assert found.None? <==> Unused(s.users, c.email);
    IssueNames(s.index, c.newUser, c.mailed, c.at, s.clock, s.everMailed, h, now, u);
    hide Inv, FindUser, Unused, Verification.Issue, Verification.Agree, Verification.Within, Names;
  }

  lemma ResendIs(s: State, c: Call)
    requires c.ResendVerification?
    ensures Next(s, c) == DoResend(At(s, c.at), c.email, c.mailed, c.at).0
  {
    hide DoResend;
  }

  lemma ResendIndex(s: State, email: string, mailed: string)
    ensures var found := FindUser(s.users, email);
            DoResend(s, email, mailed, s.clock).0.index ==
            if found.Some? && !s.users[found.value].verified
            then Verification.Issue(s.index, found.value, mailed, s.clock) else s.index
  {
    hide FindUser, Verification.Issue;
  }

  lemma ResendSends(s: State, c: Call, u: UserId)
    requires AccountsSound(s.users, s.links, s.everUsers) && c.ResendVerification?
    ensures Sends(s, c, u) <==> FindUser(s.users, c.email) == Some(u) && !s.users[u].verified
  {}

  lemma ResendNames(s: State, c: Call, h: string, now: int, u: UserId)
    requires Inv(s) && Enabled(s, c) && c.at <= now && c.ResendVerification?
    ensures NamesAfter(s, c, h, now, u, Next(s, c).index)
  {
    IndexSound(s);
    InvParts(s);
    ResendSends(s, c, u);
    ResendIs(s, c);
    ResendIndex(At(s, c.at), c.email, c.mailed);
    assert s.clock < c.at && c.mailed !in s.everMailed;
    hide Inv, AccountsSound, FindUser, Verification.Issue, Verification.Agree, Verification.Within, Names, Sends;
    hide Next, DoResend, Enabled;
    var found := FindUser(s.users, c.email);
    if found.Some? && !s.users[found.value].verified {
      IssueNames(s.index, found.value, c.mailed, c.at, s.clock, s.everMailed, h, now, u);
    }
  }

  lemma VerifyEmailNames(s: State, mailed: string, g: Grant, commits: bool, h: string, now: int, u: UserId)
    ensures NamesAfter(s, VerifyEmail(s.clock, mailed, g, commits), h, now, u,
                       DoVerifyEmail(s, mailed, g, commits, s.clock).0.index)
  {
    hide Verification.Lookup, MintAccess, MintRefresh;
  }

  /**
   What every call makes of every verification token: sending one kills the user's
   earlier ones and lives for the configured time, verifying uses it up, and nothing
   else touches it.
   */
  lemma TokensFollowMail(s: State, c: Call, h: string, now: int, u: UserId)
    requires Inv(s) && Enabled(s, c) && c.at <= now
    ensures NamesAfter(s, c, h, now, u, Next(s, c).index)
  {
    if c.SignUp? {
      SignUpNames(s, c, h, now, u);
    } else if c.ResendVerification? {
      ResendNames(s, c, h, now, u);
    } else if c.VerifyEmail? {
      VerifyEmailNames(At(s, c.at), c.mailed, c.grant, c.commits, h, now, u);
      hide Inv, DoVerifyEmail, Names;
    } else {
      Framed(s, c);
      hide Inv, Next, Names;
    }
  }

  /** Some call of the run tries to verify with the token. */
  ghost predicate Used(calls: seq<Call>, h: string) {
    exists i :: 0 <= i < |calls| && calls[i].VerifyEmail? && calls[i].mailed == h
  }

  /** Some call of the run sends the user a token. */
  ghost predicate SentTo(s: State, calls: seq<Call>, u: UserId)
    decreases |calls|
  {
    calls != [] && (Sends(s, calls[0], u) || SentTo(Next(s, calls[0]), calls[1..], u))
  }

  lemma UsedSplits(calls: seq<Call>, h: string)
    requires calls != []
    ensures Used(calls, h) <==> (calls[0].VerifyEmail? && calls[0].mailed == h) || Used(calls[1..], h)
  {
    if Used(calls[1..], h) {
      var i :| 0 <= i < |calls[1..]| && calls[1..][i].VerifyEmail? && calls[1..][i].mailed == h;
      assert calls[i + 1].VerifyEmail? && calls[i + 1].mailed == h;
    }
    if Used(calls, h) && !(calls[0].VerifyEmail? && calls[0].mailed == h) {
      var i :| 0 <= i < |calls| && calls[i].VerifyEmail? && calls[i].mailed == h;
      assert calls[1..][i - 1].VerifyEmail? && calls[1..][i - 1].mailed == h;
    }
  }

  lemma {:induction false} NamesRun(s: State, calls: seq<Call>, h: string, now: int, u: UserId)
    requires Inv(s) && Runnable(s, calls) && Run(s, calls).clock <= now && h in s.everMailed
    ensures Names(Run(s, calls).index.byHash, h, now, u) <==>
              Names(s.index.byHash, h, now, u) && !Used(calls, h) && !SentTo(s, calls, u)
    ensures s.clock <= Run(s, calls).clock
    decreases |calls|
  {
    if calls != [] {
      var c := calls[0];
      CallKeepsInv(s, c);
      Framed(s, c);
      hide Inv, Next, Names, Used;
      NamesRun(Next(s, c), calls[1..], h, now, u);
      TokensFollowMail(s, c, h, now, u);
      UsedSplits(calls, h);
    }
  }

  /**
   A token sent to a user names them, after any continuation, exactly until its time is
   up, it is tried, or another is sent to them.
   */
  lemma SentTokenNames(s: State, c: Call, calls: seq<Call>, u: UserId, now: int)
    requires Reachable(s) && Enabled(s, c) && Sends(s, c, u)
    requires Runnable(Next(s, c), calls) && Run(Next(s, c), calls).clock <= now
    ensures Names(Run(Next(s, c), calls).index.byHash, c.mailed, now, u) <==>
              && now < c.at + VERIFICATION_TOKEN_TTL
              && !Used(calls, c.mailed) && !SentTo(Next(s, c), calls, u)
  {
    ReachableSound(s);
    CallKeepsInv(s, c);
    SendingIsRecorded(s, c, u);
    Framed(s, c);
    hide Inv, Next, Names, Used, SentTo, Sends, Run, Runnable;
    NamesRun(Next(s, c), calls, c.mailed, now, u);
    TokensFollowMail(s, c, c.mailed, now, u);
  }

  lemma SendingIsRecorded(s: State, c: Call, u: UserId)
    requires Inv(s) && Sends(s, c, u)
    ensures c.mailed in Next(s, c).everMailed
  {
    InvParts(s);
    hide Inv, Verification.Issue;
  }

  // ----- Reset tokens -----

  lemma RequestNames(s: State, c: Call, h: string, now: int, u: UserId)
    requires Inv(s) && Enabled(s, c) && c.RequestReset? && c.at <= now
    ensures Names(Next(s, c).resets, h, now, u) <==>
              if h == c.mailed then u in s.users && s.users[u].email == c.email && now < c.at + PASSWORD_RESET_TOKEN_TTL
              else Names(s.resets, h, now, u)
  {
    InvParts(s);
    ResetsKnown(s);
    var found := FindUser(s.users, c.email);
    assert u in s.users && s.users[u].email == c.email ==> found == Some(u);
    RequestIs(s, c);
    hide Inv, AccountsSound, FindUser, Next;
  }

  lemma RequestIs(s: State, c: Call)
    requires c.RequestReset?
    ensures var found := FindUser(s.users, c.email);
            Next(s, c).resets == if found.Some?
                                 then SetEx(s.resets, c.mailed, found.value, c.at, PASSWORD_RESET_TOKEN_TTL)
                                 else s.resets
  {
    hide FindUser, SetEx;
  }

  lemma ResetsKnown(s: State)
    requires Inv(s)
    ensures s.resets.Keys <= s.everMailed
  {
    hide FamiliesSound;
  }

  lemma RedemptionNames(s: State, mailed: string, password: string, h: string, now: int, u: UserId)
    ensures Names(DoResetPassword(s, mailed, password, s.clock).0.resets, h, now, u) <==>
              h != mailed && Names(s.resets, h, now, u)
  {
    hide WithoutUser, Get;
  }

  /** What every call makes of every reset token. */
  lemma TokensFollowRequests(s: State, c: Call, h: string, now: int, u: UserId)
    requires Inv(s) && Enabled(s, c) && c.at <= now
    ensures Names(Next(s, c).resets, h, now, u) <==>
              if c.RequestReset? && h == c.mailed then
                u in s.users && s.users[u].email == c.email && now < c.at + PASSWORD_RESET_TOKEN_TTL
              else
                Names(s.resets, h, now, u) && !(c.ResetPassword? && c.mailed == h)
  {
    if c.RequestReset? {
      RequestNames(s, c, h, now, u);
      hide Inv, Next, Names;
    } else if c.ResetPassword? {
      RedemptionNames(At(s, c.at), c.mailed, c.password, h, now, u);
      hide Inv, DoResetPassword, Names;
    } else {
      Framed(s, c);
      hide Inv, Next, Names;
    }
  }

  /** Some call of the run tries to reset with the token. */
  ghost predicate Spent(calls: seq<Call>, h: string) {
    exists i :: 0 <= i < |calls| && calls[i].ResetPassword? && calls[i].mailed == h
  }

  lemma SpentSplits(calls: seq<Call>, h: string)
    requires calls != []
    ensures Spent(calls, h) <==> (calls[0].ResetPassword? && calls[0].mailed == h) || Spent(calls[1..], h)
  {
    if Spent(calls[1..], h) {
      var i :| 0 <= i < |calls[1..]| && calls[1..][i].ResetPassword? && calls[1..][i].mailed == h;
      assert calls[i + 1].ResetPassword? && calls[i + 1].mailed == h;
    }
    if Spent(calls, h) && !(calls[0].ResetPassword? && calls[0].mailed == h) {
      var i :| 0 <= i < |calls| && calls[i].ResetPassword? && calls[i].mailed == h;
      assert calls[1..][i - 1].ResetPassword? && calls[1..][i - 1].mailed == h;
    }
  }

  lemma {:induction false} RequestedRun(s: State, calls: seq<Call>, h: string, now: int, u: UserId)
    requires Inv(s) && Runnable(s, calls) && Run(s, calls).clock <= now && h in s.everMailed
    ensures Names(Run(s, calls).resets, h, now, u) <==> Names(s.resets, h, now, u) && !Spent(calls, h)
    ensures s.clock <= Run(s, calls).clock
    decreases |calls|
  {
    if calls != [] {
      var c := calls[0];
      CallKeepsInv(s, c);
      Framed(s, c);
      hide Inv, Next, Names, Spent;
      RequestedRun(Next(s, c), calls[1..], h, now, u);
      TokensFollowRequests(s, c, h, now, u);
      SpentSplits(calls, h);
    }
  }

  /** A reset token names its user, after any continuation, exactly until its time is up or it is tried. */
  lemma RequestedTokenNames(s: State, c: Call, calls: seq<Call>, u: UserId, now: int)
    requires Reachable(s) && Enabled(s, c) && c.RequestReset? && u in s.users && s.users[u].email == c.email
    requires Runnable(Next(s, c), calls) && Run(Next(s, c), calls).clock <= now
    ensures Names(Run(Next(s, c), calls).resets, c.mailed, now, u) <==>
              now < c.at + PASSWORD_RESET_TOKEN_TTL && !Spent(calls, c.mailed)
  {
    ReachableSound(s);
    CallKeepsInv(s, c);
    assert c.mailed in Next(s, c).everMailed by { hide Inv; }
    Framed(s, c);
    hide Inv, Next, Names, Spent, Run, Runnable;
    RequestedRun(Next(s, c), calls, c.mailed, now, u);
    TokensFollowRequests(s, c, c.mailed, now, u);
  }
}
