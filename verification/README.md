# Flare Tag: sessions, badges, digests, sanitiser and seeder

A Dafny model of the stateful core of the Flare Tag backend, with proofs of what it
guarantees over whole runs.

* **Sessions and credentials** (`Sessions`, `SessionInvariants`, `SessionTheorems`,
  `LogoutTheorems`, `AccountTheorems`, `LoginTheorems`, `GrantTheorems`, `TokenTheorems`,
  `CredentialTheorems`, `MailTheorems`, `Footprints`, `Lockout`, `Verification`,
  `AccessTokens`, `Redis`, `SessionList`, `AuthService`).
  Thirteen service calls act on one state: users, Google links, refresh-token rows,
  failed-login counters, verification and reset tokens, the blacklist. `Sessions` gives
  the step of each call, `Run` a run from any state, `Reachable` the states that runs
  from empty stores lead to. `AuthService.Service` is the service in imperative form: fields for
  the tables and Redis keys, methods with the loops of the bulk statements, each proved
  to do exactly its step and to keep `SessionInvariants.Inv`. What the steps amount to is
  said of the rows' own fields: `TokenTheorems` follows every token row, `CredentialTheorems`
  every account, link and answer, `MailTheorems` every mailed token, through every call and
  over whole runs.
* **Badges** (`Badges`, `BadgeInvariants`, `BadgeTheorems`, `BadgeOutcomes`,
  `BadgeService`): the badge
  lifecycle together with the external asset store, where an upload, a commit or a
  deletion may fail, with the counters and the notifications they must agree with, and
  with the deletion of an account, which takes badges, preferences and notifications along.
* **Notifications and digests** (`Notifications`, `GroupBy`, `Digests`, `DigestJobs`).
* **Sanitiser** (`QuerySanitizer`, `LogSanitizer`) and **seeder** (`Seeder`).

## How the program is modelled

* One service call is one step. The code takes no row locks, so every claim is about
  calls that do not interleave.
* The clock strictly advances from call to call. Instants and durations are whole
  milliseconds; token claims are whole seconds, truncated as the code truncates them.
  Limits have the defaults of `app/core/config.py`.
* Hashes are injective, so a token stands for its hash and a password for its hash; a
  password check is equality. Ids, families, tokens, slugs and asset names that the code
  draws at random are parameters of the call and were never drawn before (`Enabled`); a
  slug may also clash, and publishing then fails.
* A token decodes if it was signed (`signed`), and a refresh token, signed with the same
  key, decodes like an access token.
* Redis is a map to values with an optional instant of expiry; a key past its instant
  reads as absent. Unique constraints of the tables that the calls rely on are checked
  where a call could violate them (e-mail, one Google link for each user and subject, slug).
* `chains`, `everUsers`, `everMailed`, `everBadges`, `everAssets`, `removed`, `refused` and
  `failedDeletes` record the past; no call decides anything by them.
* `Inv` holds in every reachable state (`SessionInvariants.ReachableSound`,
  `BadgeInvariants.ReachableSound`), so lemmas that require it apply to all of them.
* SQL `GROUP BY`, `ORDER BY`, `UPDATE … WHERE` and `DELETE … WHERE` are loops over the
  rows in an arbitrary order.

## What the code does where a reader may expect otherwise

* A blacklist entry lives until the token's `exp` and not a moment longer.
  `RefusedForeverIffNoLeeway` shows this is long enough exactly when the decoder refuses a
  token at its `exp`, as section 4.1.4 of RFC 7519 asks; a decoder that still accepts it
  in that second (a leeway of one) would admit it again. Statements about the gate take a
  leeway of zero.
* The gate checks no token type, so a refresh token presented in place of an access token
  is admitted. Ending all sessions revokes rows and blacklists the token the call came
  with; it does not reach other signed tokens. `AdmittedUntilPresented` and
  `AdmittedAfterSessionsEnd` say exactly which tokens the gate admits, `SessionsStayEnded`
  by when every one of the user's has run out: after the access lifetime for access tokens,
  after the refresh lifetime for refresh tokens.
* Deleting an account asks for the deletion of the logos of soft-deleted badges again, so a
  failed deletion may be made good, or fail twice. There are then fewer orphans than failed
  deletions (`LogosAreStored`); without account deletions there is one for each
  (`OneOrphanPerFailure`). It leaves `total_badges_made` as it is, so that total counts
  badges made, not rows (`TemplateTotals`).
* `verify_email` removes the key of the verification token but leaves the user's reverse
  key behind. `OneRedeemablePerUser` and `RedeemedOnce` hold all the same.
* A password reset deletes all token rows of the user, whereas logout-all revokes only
  rows that are active at that instant; a row past its expiry stays unrevoked and is
  refused by its expiry (`SessionsStayEnded` covers both).
* `LOCKOUT_WINDOW` is a fixed window that starts with the first failure, not a sliding
  one: two windows can meet inside an interval of that length. The bound is
  `2 * MAX_LOGIN_ATTEMPTS - 1` and is reached (`WindowBoundIsReached`).
* The seeder reads rows into a dictionary by title, so of two rows with a legacy title one
  run deletes one: `LegacyGoneIffOnce`.

## Model

| member | source | states |
|---|---|---|
| SessionInvariants.CallKeepsInv | app/services/auth.py:70-573 | Every service call, from any sound state, keeps all invariants: families are single chains with one owner, at most their newest row unrevoked, owners verified, e-mails and links unique, the verification index agreeing, counters and minted tokens within bounds. |
| SessionInvariants.ReachableSound | app/services/auth.py:332-440 | Those invariants hold in every state any run leads to. |
| SessionTheorems.FamilyIsOneChain | app/services/auth.py:261-277 | All rows of a family belong to one owner, are exactly the tokens the family was rotated through, and only the newest may be unrevoked. |
| SessionTheorems.OneLiveTokenPerFamily | app/services/auth.py:397-430 | In every reachable state two unrevoked tokens of a family are the same token. |
| SessionTheorems.FamilyEffect | app/services/auth.py:364-465 | A call either rotates a family's newest token, extending its chain by one, or leaves the chain alone and makes no revoked row of it unrevoked. |
| SessionTheorems.DeadFamilyStaysDead | app/services/auth.py:364-395 | A family without an unrevoked row never gets one again in any continuation, and every later refresh with any of its tokens is refused. |
| SessionTheorems.AlertMeansReuse | app/services/auth.py:364-386 | Reuse is detected if and only if a revoked token is replayed more than REFRESH_REUSE_GRACE after its last use; a replay within it is refused and changes no state. Detection leaves no unrevoked row in the family, and the alert goes out if and only if one was left; then the token is an older link of the chain. |
| SessionTheorems.AtMostOneAlert | app/services/auth.py:373-386 | A whole run raises at most one alert for each family. |
| SessionTheorems.GraceReplayChangesNothing | app/services/auth.py:365-372 | Supporting step: what replaying a revoked token does within and outside the grace period, by the instant its row carries. |
| TokenTheorems.RowsFollowCalls | app/services/auth.py:332-465 | The fate of every stored token row in every call: it goes exactly with its account or a completed reset; a refresh spends it and marks when; logout with it, logout-all while it is active and a replay in its family revoke it; otherwise no field of it changes. |
| TokenTheorems.RowsAreGranted | app/services/auth.py:258-277 | A row is added exactly when the reply hands out its token, for that user, in the right family, unrevoked, with the full lifetime and marked as just used. |
| TokenTheorems.SpentTokenReplayed | app/services/auth.py:364-427 | After a refresh rotated a token, in any continuation: a replay within the grace period from that rotation is refused and changes nothing but the clock, a later one is reuse and leaves no unrevoked row in the family. |
| TokenTheorems.LoggedOutForGood | app/services/auth.py:443-465 | A refresh token that logout, account deletion or a completed password change logged out is never rotated again, in any continuation. |
| TokenTheorems.LogoutEndsOneSession | app/services/auth.py:455-463 | Logout and a completed password change revoke that one row and change no other; every user's active sessions are, at every instant, those before without it. |
| GrantTheorems.GrantsAreFreshPairs | app/services/auth.py:258-277 | Whichever call hands out tokens (verification, sign-in, Google, refresh), they are signed with the named user's claims, unrevoked, not blacklisted and with the full lifetimes. |
| GrantTheorems.GrantsServe | app/services/auth.py:397-430 | Tokens handed out serve exactly their lifetimes: over any run the gate admits the access token until it is presented to a call that blacklists it, its expiry passes or the account goes; and a refresh that comes next rotates the refresh token if and only if its row has not run out. |
| GrantTheorems.FreshPairServes | app/services/auth.py:397-430 | Supporting step: gate and refresh on a fresh pair before any other call. |
| GrantTheorems.ReachableBlacklistKnown | app/core/token.py:29-43 | In every reachable state only identifiers of tokens really minted are blacklisted, so blacklisting never hits a token drawn later. |
| LogoutTheorems.OnlyGrantsGrant | app/services/auth.py:443-465 | No call gives a user an unrevoked row or a signed token unless its reply hands that user tokens. |
| LogoutTheorems.SessionsStayEnded | app/services/auth.py:960-996 | After logout-all, a completed reset or deletion at t and until a fresh login, over any continuation: no refresh succeeds for the user, the list of sessions is empty, and the gate refuses every access token ever minted for them from t plus the access lifetime on, every refresh token from t plus the refresh lifetime on. |
| LogoutTheorems.AdmittedUntilPresented | app/dependencies.py:24-80 | A token not blacklisted is admitted after any run if and only if no call came with it and blacklisted it, its expiry lies ahead and its account exists. |
| LogoutTheorems.AdmittedAfterSessionsEnd | app/services/auth.py:960-996 | Exactly which of a user's tokens, refresh tokens among them, the gate still admits after all sessions ended. |
| LogoutTheorems.LogoutAllEmptiesTheList | app/services/auth.py:889-985 | Logout-all reports as many sessions as the user has unrevoked rows ahead of their expiry, empties their list for every later instant and leaves other users' lists alone. |
| LogoutTheorems.PresentedTokenRefused | app/services/auth.py:282-312 | An access token that comes with a completed refresh, logout, logout-all, password change or account deletion is refused at every later instant, whatever calls follow. |
| LogoutTheorems.BlacklistEffect | app/services/auth.py:305-312 | The blacklist changes exactly at those calls, by the presented token's entry. |
| AccessTokens.PresentedIsDead | app/core/token.py:29-43 | Presenting a token leaves it expired or blacklisted until its expiry. |
| AccessTokens.DeadStaysDead | app/core/token.py:29-43 | Blacklisting other tokens, or the same again, never brings it back. |
| AccessTokens.DeadIsRefused | app/dependencies.py:24-80 | The gate refuses such a token. |
| AccessTokens.RefusedForeverIffNoLeeway | app/services/auth.py:305-312 | A live presented token is refused at every later instant if and only if the decoder allows no leeway past its expiry. |
| Lockout.FailuresPerWindow | app/services/auth.py:523-549 | Between resets, any half-open interval of the window's length holds at most 2 * MAX_LOGIN_ATTEMPTS - 1 failed checks. |
| Lockout.FailuresPerLifetime | app/services/auth.py:523-549 | One lifetime of a counter, from the attempt that finds none on, holds at most MAX_LOGIN_ATTEMPTS failed checks, whatever came before. |
| Lockout.WindowBoundIsReached | app/services/auth.py:523-549 | The bound of the interval is met by some run, for every identifier. |
| LoginTheorems.SignInFollowsLockout | app/services/auth.py:226-256 | Supporting step: a sign-in refuses, counts a failure or resets as the lockout protocol says, and its reply tells which. |
| CredentialTheorems.SignInOpensExactly | app/services/auth.py:226-279 | A sign-in opens a session for a user if and only if the account has that e-mail and that password, is verified, and no live counter has reached the limit; names an unverified e-mail under the same conditions otherwise; a full counter refuses and changes nothing; any other attempt is exactly one failure more. |
| CredentialTheorems.OnlySetPasswordOpens | app/services/auth.py:164-202 | After a completed reset, change of password or sign-up and until the next that sets it, in any continuation, a sign-in opens a session for the user exactly with that password. |
| LoginTheorems.CountersFollowSignIns | app/services/auth.py:226-253 | The counters of a run of all calls are those of its sign-ins alone. |
| LoginTheorems.ChecksAreLockoutOutcomes | app/services/auth.py:226-253 | Failed and passed checks counted by replies are those the lockout protocol counts. |
| LoginTheorems.FailedChecksPerWindow | app/services/auth.py:226-253 | The interval bound, for sign-ins mixed with any other calls. |
| LoginTheorems.FailedChecksPerLifetime | app/services/auth.py:226-253 | The lifetime bound, for sign-ins mixed with any other calls, from any reachable state. |
| Verification.OneRedeemablePerUser | app/core/token.py:46-78 | In every run each user has at most one token that redeems, and its reverse key outlives it. |
| Verification.ConsumeClears | app/core/token.py:63-78 | Supporting step: consuming a token removes it and, if it was live, its user's reverse key. |
| Verification.OnlyLatestRedeems | app/core/token.py:156-168 | Once a newer token was issued for a user, no earlier one redeems, whatever happens in between and after. |
| Verification.RedeemedOnce | app/core/token.py:63-78 | A token redeems at most once in a run. |
| LoginTheorems.IndexFollowsMail | app/services/auth.py:115-159 | The verification index of a run of all calls is that of its sign-ups, resends and verifications alone. |
| LoginTheorems.VerifiedAtMostOnce | app/routers/v1/auth.py:623-643 | Over a whole run every verification token finds a user at most once. |
| LoginTheorems.OneRedeemableToken | app/core/token.py:46-78 | In every reachable state at most one token would verify a given user. |
| LoginTheorems.OnlyLatestVerifies | app/services/auth.py:115-159 | Once a call sends a user a token, with no later one sent, no other token verifies that user, whatever calls follow. |
| MailTheorems.TokensFollowMail | app/core/token.py:46-78 | What every call makes of every verification token: sending one kills the user's earlier ones and lives for its configured time, trying uses it up, nothing else touches it. |
| MailTheorems.SentTokenNames | app/core/token.py:46-78 | A token sent names its user, after any continuation, exactly until its time is up, it is tried, or another is sent to them. |
| LoginTheorems.ResetAtMostOnce | app/core/token.py:113-136 | Over a whole run every password-reset token finds a user at most once. |
| MailTheorems.TokensFollowRequests | app/core/token.py:113-136 | What every call makes of every reset token. |
| MailTheorems.RequestedTokenNames | app/core/token.py:113-136 | A reset token names its user, after any continuation, exactly until its time is up or it is tried. |
| AccountTheorems.OnlyVerifiedHoldSessions | app/services/auth.py:255-256 | Users without a password are verified, linked users are verified, and every refresh-token row belongs to a verified user. |
| AccountTheorems.AccountChangesHaveCauses | app/services/auth.py:164-202 | An account is removed only by its deletion, its e-mail changed only by its profile update, its password only by a reset token issued to it or with its current password, and verified only by a verification token issued to it; a deleted account never returns. |
| CredentialTheorems.AccountsFollowCalls | app/services/profile.py:128-253 | What every call makes of every account: which are made and with what fields, which go, and the e-mail, password and verification of the others afterwards. |
| CredentialTheorems.PasswordRepliesExactly | app/services/auth.py:164-202 | A reset goes through exactly for a live token that names an account, a change exactly with the current password. |
| CredentialTheorems.VerifyEmailRepliesExactly | app/routers/v1/auth.py:621-663 | Verification opens a session exactly for the unverified account a live token names, if the commit succeeds; otherwise which refusal. |
| CredentialTheorems.MailRepliesExactly | app/services/auth.py:90-161 | Sign-up is refused exactly for an e-mail in use, a resend exactly for a verified account, a reset request never. |
| CredentialTheorems.UpdateRepliesExactly | app/services/profile.py:128-154 | A change of e-mail is refused exactly when another account has it. |
| AccountTheorems.VerificationNeverReverts | app/routers/v1/auth.py:636-643 | A verified account stays verified in every continuation while it exists. |
| AccountTheorems.GoogleNeverVerifies | app/services/auth.py:815-867 | A Google sign-in changes no existing account's verification, and opens no session for an unverified one. |
| AccountTheorems.LinksAreOneToOne | app/models/auth.py:30-37 | A Google subject links to at most one user and a user to at most one subject. |
| AccountTheorems.LinkedSubjectKeepsItsUser | app/services/auth.py:807-867 | Once linked, every later Google sign-in with the subject opens a session of the same user, whatever the e-mails become, until the account is deleted. |
| CredentialTheorems.GoogleOpensExactly | app/services/auth.py:807-867 | A Google sign-in opens a session for exactly the linked account, else the verified unlinked one with the e-mail, else a new one, and links the subject to it; an unverified account with the e-mail is a conflict. |
| CredentialTheorems.LinksFollowDeletion | app/models/auth.py:30-45 | No other call makes a link, and only deletion of an account takes its links away. |
| Footprints.Framed | app/services/auth.py:70-573 | Which parts of the state each call can change; everything else stays. |
| Footprints.SignedGrows | app/core/token.py:81-110 | No token ever minted stops decoding to its claims. |
| SessionList.ListUserSessions | app/services/auth.py:874-933 | The total counts all active sessions, the page is a slice of all of them in order of last use, and at most one is the current one. |
| AuthService.Service.SignUp | app/services/auth.py:70-127 | Does the sign-up step and keeps all invariants. |
| AuthService.Service.ResendVerification | app/services/auth.py:130-161 | Does the resend step and keeps all invariants. |
| AuthService.Service.VerifyEmail | app/routers/v1/auth.py:608-679 | Does the verification step, also when the commit fails, and keeps all invariants. |
| AuthService.Service.SignIn | app/services/auth.py:205-279 | Does the sign-in step and keeps all invariants. |
| AuthService.Service.GoogleCallback | app/routers/v1/auth.py:734-786 | Does the Google sign-in step and keeps all invariants. |
| AuthService.Service.FindOrCreateGoogleUser | app/services/auth.py:786-871 | Finds, links or creates the account the state machine says. |
| AuthService.Service.RefreshSession | app/services/auth.py:332-440 | Does the refresh step (rotation, refusal or reuse) and keeps all invariants. |
| AuthService.Service.LogoutSession | app/services/auth.py:443-465 | Does the logout step and keeps all invariants. |
| AuthService.Service.RevokeAllUserSessions | app/services/auth.py:960-996 | Does the logout-all step and keeps all invariants. |
| AuthService.Service.RequestPasswordReset | app/services/auth.py:552-573 | Does the reset-request step and keeps all invariants. |
| AuthService.Service.ResetPassword | app/services/auth.py:164-202 | Does the reset step and keeps all invariants. |
| AuthService.Service.ChangePassword | app/services/profile.py:227-253 | Does the password-change step and keeps all invariants. |
| AuthService.Service.UpdateProfile | app/services/profile.py:128-154 | Does the profile-update step and keeps all invariants. |
| AuthService.Service.DeleteProfile | app/services/profile.py:157-224 | Does the deletion step with its cascade to links and token rows, and keeps all invariants. |
| AuthService.Service.RevokeFamilyRows | app/services/auth.py:373-386 | The bulk update revokes exactly the family's rows and reports whether any was unrevoked. |
| AuthService.Service.RevokeActiveRows | app/services/auth.py:973-985 | The bulk update revokes exactly the user's active rows and counts them. |
| AuthService.Service.IncrementFailedAttempts | app/services/auth.py:532-543 | The counter grows by one and starts its window only when it is new. |
| BadgeInvariants.CallKeepsInv | app/services/badge.py:63-708 | Every badge call, account deletion included, keeps the lifecycle, slug, asset, template and notice invariants. |
| BadgeInvariants.ReachableSound | app/services/badge.py:63-708 | They hold in every state any run leads to. |
| BadgeTheorems.LifecycleHolds | app/services/badge.py:136-193 | Published if and only if a publication time is set; published implies a slug and not deleted; slugs are never shared; private if and only if a code of 4 to 10 characters is stored. |
| BadgeTheorems.BadgesAreKept | app/services/badge.py:558-613 | Over any continuation a badge's row goes if and only if its organiser's account is deleted, and never returns; until then a slug once set never changes and a soft-deleted badge never changes at all. |
| BadgeTheorems.PageShowsExactly | app/routers/v1/badges.py:874-914 | The public page shows a badge exactly when it is public under the slug and open or unlocked by the code; the private-without-code branch is never reached. |
| BadgeTheorems.LogosAreStored | app/services/badge.py:228-255 | Whatever failed, the logo of every undeleted badge is stored and no other badge has it; the store holds live logos plus the orphans, assets whose deletion failed and never succeeded, and there are no more orphans than failed deletions. |
| BadgeTheorems.OneOrphanPerFailure | app/services/badge.py:228-255 | In a run without account deletions the store holds live logos plus exactly one orphan for each failed deletion. |
| BadgeTheorems.TemplateTotals | app/services/badge.py:48-60 | Over every run a template's total is the number of successful creates and duplicates from it, and the rows made from it that are left plus those account deletions took. |
| BadgeTheorems.CreationsAreAccountedFor | app/services/badge.py:321-356 | A badge's creation count is its creation notifications ever made plus the creations counted while the toggle was off. |
| BadgeOutcomes.RefusedExactly | app/services/badge.py:214-226 | An organiser call is refused exactly for a badge that is missing, deleted or someone else's, naming which, and then changes nothing. |
| BadgeOutcomes.UploadReplacesLogo | app/services/badge.py:196-262 | An upload goes through exactly for the organiser when upload and commit succeed; then the new asset is the logo and stored, the old one gone exactly if its deletion succeeded, nothing else changed; otherwise no badge changed. |
| BadgeOutcomes.DeleteOutcome | app/services/badge.py:558-613 | Deleting marks and unpublishes the badge, and takes exactly its own logo from the store, exactly if that request succeeded. |
| BadgeOutcomes.CreateOutcome | app/services/badge.py:63-109 | A badge is made exactly from an existing active template, as a draft with its title. |
| BadgeOutcomes.DuplicateOutcome | app/services/badge.py:445-510 | A copy has title, template, access and hashtags of the original, and no logo, slug, publication or counts. |
| BadgeOutcomes.PublishOutcome | app/services/badge.py:112-163 | Publishing keeps a slug the badge has and gives it the new one otherwise; refused exactly if already published or if another badge has the slug. |
| BadgeOutcomes.UnpublishOutcome | app/services/badge.py:166-193 | Unpublishing clears the publication and nothing else. |
| BadgeOutcomes.EditOutcome | app/services/badge.py:646-708 | An edit goes through exactly if access and title are acceptable, sets exactly what it names, and leaves an open badge without a code. |
| BadgeOutcomes.CreationOutcome | app/services/badge.py:321-356 | A creation counts one on the public badge under the slug and adds one notice for its organiser exactly if they want it. |
| BadgeOutcomes.ShareOutcome | app/services/badge.py:299-318 | A share counts one on the public badge under the slug, and nothing without one. |
| BadgeOutcomes.PageAnswersExactly | app/routers/v1/badges.py:874-914 | What the public page answers, case by case. |
| BadgeOutcomes.DeleteAccountOutcome | app/services/profile.py:157-221 | Deleting an account takes exactly the user's badges, preferences and notifications, and exactly those of their logos whose deletion succeeded. |
| BadgeOutcomes.TemplatesKeep | app/services/badge.py:48-60 | No call changes a template's title or status. |
| BadgeOutcomes.RestStays | app/services/badge.py:63-708 | Which badge calls leave preferences, inbox and store alone. |
| BadgeOutcomes.SettingsStayApart | app/services/notification.py:51-220 | Preference and reading calls leave badges, templates and store alone; preferences are overlaid for the user alone. |
| BadgeService.Service.CreateBadge | app/services/badge.py:63-109 | Does the create step and keeps all invariants. |
| BadgeService.Service.PublishBadge | app/services/badge.py:112-163 | Does the publish step, rolling back on a slug clash, and keeps all invariants. |
| BadgeService.Service.UnpublishBadge | app/services/badge.py:166-193 | Does the unpublish step and keeps all invariants. |
| BadgeService.Service.UploadBadgeLogo | app/services/badge.py:196-262 | Does the upload step under every combination of failures and keeps all invariants. |
| BadgeService.Service.DeleteBadge | app/services/badge.py:558-613 | Does the soft-delete step and keeps all invariants. |
| BadgeService.Service.DuplicateBadge | app/services/badge.py:445-510 | Does the duplicate step and keeps all invariants. |
| BadgeService.Service.EditBadge | app/services/badge.py:646-708 | Does the edit step, refusing invalid access settings, and keeps all invariants. |
| BadgeService.Service.RecordBadgeCreation | app/services/badge.py:321-356 | Does the creation-count step with its gated notification and keeps all invariants. |
| BadgeService.Service.RecordBadgeShare | app/services/badge.py:299-318 | Does the share-count step and keeps all invariants. |
| BadgeService.Service.DeleteAccount | app/services/profile.py:157-221 | Does the account-deletion step, with its cascade and one request for each logo, any of which may fail, and keeps all invariants. |
| Notifications.UpsertOverlays | app/services/notification.py:51-91 | With or without a row, an update overlays the preferences in effect and concerns no one else. |
| Notifications.AllowsIsEffective | app/services/notification.py:94-137 | Supporting step: the gate asks exactly the preferences in effect, defaults included. |
| Notifications.EachKindHasItsToggle | app/services/notification.py:94-127 | Each of the three kinds is gated by its own toggle, and by nothing without a row. |
| Notifications.EffectiveToggles | app/services/notification.py:14-48 | Without a row every toggle is on; with one the row decides. |
| Notifications.Store.UpdatePreferences | app/services/notification.py:51-91 | Writes that overlay and returns the preferences now in effect. |
| Notifications.AllReadCounts | app/services/notification.py:202-220 | Marking all read clears the user's unread count and no one else's. |
| Notifications.UnreadCountIsSize | app/services/notification.py:169-177 | The unread count is the number of the user's unread notifications. |
| Notifications.Store.CreateNotification | app/services/notification.py:101-137 | A notification is appended exactly when the user has no row or that kind's own toggle is on; otherwise nothing changes. |
| Notifications.Store.MarkRead | app/services/notification.py:180-199 | Only the named notification of the user is marked. |
| Notifications.Store.MarkAllRead | app/services/notification.py:202-220 | Exactly the user's notifications become read; the result counts those that were unread. |
| Digests.DaysAddUp | app/workers/digest_jobs.py:134-137 | A window of whole days counts what its daily windows count together. |
| Digests.ColumnCountsDays | app/workers/digest_jobs.py:186-202 | Grouping the week's rows by day of the week yields exactly the seven daily counts. |
| Digests.NamesAreRight | app/workers/digest_jobs.py:139-209 | Supporting step: the name picked for a Postgres day of the week is that day's name. |
| Digests.WeekdaysFollowTheCalendar | app/workers/digest_jobs.py:139-209 | Supporting step: both numberings of the days run through the week and agree with the calendar. |
| Digests.CountIsSize | app/workers/digest_jobs.py:77-93 | A count is the number of the user's creation notifications in the half-open window. |
| Digests.GroupsMakeReport | app/workers/digest_jobs.py:186-234 | The week's total is the sum of the daily counts and of the per-day column; the named day has the maximal count, with the least day number among equals. |
| Digests.ReportsFeedNoCount | app/workers/digest_jobs.py:77-90 | Reports written never enter any count of any window. |
| GroupBy.GroupAndRank | app/workers/digest_jobs.py:186-206 | Grouping and ordering gives each key once, with its count, in descending order with the least key first among equals; the counts add up to the rows. |
| GroupBy.OccurrencesIsSize | app/workers/digest_jobs.py:186-206 | Supporting step: occurrences are counted by position. |
| DigestJobs.CountByUser | app/workers/digest_jobs.py:77-93 | The grouped query counts each target's creations in the window. |
| DigestJobs.DailyGoesTo | app/workers/digest_jobs.py:50-73 | The if-and-only-if on who gets a digest, and its count. |
| DigestJobs.WeeklyGoesTo | app/workers/digest_jobs.py:153-180 | The if-and-only-if on who gets a weekly report, and its total. |
| DigestJobs.Jobs.SendDailyDigests | app/workers/digest_jobs.py:34-121 | A digest goes to a user if and only if they have a creation today and either have the daily toggle on or have no row and own a badge; one each, carrying the number of today's creations; sent plus skipped is the number of targets; no count changes. |
| DigestJobs.Jobs.SendWeeklyReports | app/workers/digest_jobs.py:124-246 | The same over seven days with the weekly toggle, with a right weekly report for each. |
| QuerySanitizer.PrintParses | app/core/sanitizer.py:212-233 | A printed dictionary parses back to itself: keys, values and order. |
| QuerySanitizer.Idempotent | app/core/sanitizer.py:212-233 | Sanitising a sanitised query changes nothing, for every string. |
| QuerySanitizer.SameOutputIffSameShown | app/core/sanitizer.py:212-233 | Two queries come out the same if and only if they agree on everything but the values of sensitive keys. |
| QuerySanitizer.SecretsDoNotInterfere | app/core/sanitizer.py:212-233 | Changing what stands under sensitive keys, anywhere in the query, never changes the output. |
| QuerySanitizer.EveryKeyIsShown | app/core/sanitizer.py:212-233 | Read again, the output has every key, redacted if sensitive, else with the last value given. |
| QuerySanitizer.ParsedKeys | app/core/sanitizer.py:217-224 | A key is in the dictionary exactly if some piece has it. |
| QuerySanitizer.KeysKeepTheirOrder | app/core/sanitizer.py:217-231 | Keys stand in the order in which they first occur. |
| QuerySanitizer.SplitCuts | app/core/sanitizer.py:219-220 | Splitting cuts at every ampersand and loses nothing. |
| QuerySanitizer.SanitizeQuery | app/core/sanitizer.py:212-233 | The loops over the dictionaries compute the sanitised query. |
| LogSanitizer.SanitizeValue | app/core/sanitizer.py:134-146 | The routing by type computes the sanitised value. |
| LogSanitizer.SanitizeDict | app/core/sanitizer.py:110-123 | The loop computes the sanitised dictionary. |
| LogSanitizer.SanitizeList | app/core/sanitizer.py:126-131 | The loop computes the sanitised list. |
| LogSanitizer.SanitizeForLogging | app/core/sanitizer.py:238-241 | With the default depth, the output is the sanitised value and is safe to write. |
| LogSanitizer.SanitizedIsSafe | app/core/sanitizer.py:110-146 | The output holds nothing under sensitive keys but the redaction mark, no list over ten items, no nesting past the depth, no text but cleaned text and markers. |
| LogSanitizer.OpenPlacesAreShown | app/core/sanitizer.py:110-146 | A place reached without a sensitive key, a cut-off item or too many steps appears, sanitised. |
| LogSanitizer.PlacesAreShownAs | app/core/sanitizer.py:110-146 | What the log shows at every place it reaches: numbers as they are, text cleaned, dictionaries with their keys and secrets redacted, lists cut, a marker where the depth is used up. |
| LogSanitizer.OtherPlacesDoNotInterfere | app/core/sanitizer.py:110-146 | Whatever stands at any other place, the output is the same. |
| Seeder.Templates.SeedTemplates | app/db/seed/seeder.py:92-160 | The loops delete, sync and insert what the run function says, with its counts. |
| Seeder.Templates.DeleteLegacy | app/db/seed/seeder.py:121-126 | Exactly the indexed rows with legacy titles are deleted. |
| Seeder.OneRunSettles | app/db/seed/seeder.py:92-160 | With distinct titles, one run removes every legacy title, makes every definition present, keeps titles distinct, adds only active unused rows with a definition's fields, and changes in other rows nothing but the fields a definition with their title prescribes. |
| Seeder.CountsAreExact | app/db/seed/seeder.py:121-160 | A run counts exactly the legacy titles that were stored, the definitions that were missing and those whose row differed. |
| Seeder.SecondRunDoesNothing | app/db/seed/seeder.py:92-160 | A second run inserts, updates and deletes nothing and leaves every row as it is. |
| Seeder.QuietIffSettled | app/db/seed/seeder.py:131-160 | A run does nothing if and only if no legacy title is stored and every definition is. |
| Seeder.LegacyGoneIffOnce | app/db/seed/seeder.py:93-126 | After one run all legacy titles are gone if and only if none was stored twice. |

## Left out

- Routing, cookies, rate limits, request validation and response envelopes: no state of their own. Calls take validated input.
- SMTP, the Google HTTP exchange, OAuth state and Cloudinary transport: whether they succeed is a parameter; only alerts, links and the asset set remain.
- bcrypt, SHA-256, JWT signing and random generation: injective hashes, decoding of what was signed, fresh names.
- Interleavings inside a call, crashes between two Redis commands, and a database failure in calls other than e-mail verification, publishing, editing and logo upload.
- Token rows' user agent and address, the minutes named in a lockout message, the e-mail that carries a lockout or reuse alert.
- AuthService.Service.DeleteProfile: models the cascade to links and token rows and the logout; the cascade to badges, preferences and notifications and the deletion of logos are BadgeService.Service.DeleteAccount, a step of the other state machine. The deletion of photos and of thumbnails, named by an address the organiser supplies, is not part of the model.
- Profile photos, thumbnails, names and roles, the administrator gate, role seeding.
- SessionList.ListUserSessions: takes the current family as a parameter; the look-up of the presented refresh token is left out.
- BadgeTheorems.TemplateTotals: says nothing of templates an administrator or the seeder deletes for good; the badge model never removes a template row, nor the badges that would go with it.
- Badge fields with no bearing on the state (canvas, caption, link, thumbnail), badge and template lists, and the analytics sums: they would only add easy members.
- Digests: the Postgres session time zone is taken to be UTC, and failures in the middle of a job are left out.
- The sanitiser's patterns: which names are sensitive and how plain text is cleaned are parameters; header, SQL-parameter and exception sanitising are left out, as is the catch-all branch of the query sanitiser, which no string reaches.
- LogSanitizer.SanitizeDict: dictionary keys are strings.
- Seeder.OneRunSettles: requires definitions with distinct titles, none of them legacy, as the shipped definitions are (tests/db/test_seed.py promises the former).
