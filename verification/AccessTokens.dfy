/**
 Access tokens, the blacklist of their identifiers, and the gate that decides
 whom a request acts for.
 */
module AccessTokens {
  import opened Prelude
  import opened Redis
  import opened Settings

  type UserId = nat

  /**
   The claims of a decoded token. A token is named by its identifier, so the map
   of all tokens ever signed is keyed by it: a string outside the map does not
   decode. Refresh tokens are signed with the same key and decode as well.
   */
  datatype Claims = Claims(jti: Option<string>, sub: Option<UserId>, exp: Option<int>, isRefresh: bool)

  type Signed = map<string, Claims>

  type Blacklist = Store<string, ()>

  function Decode(signed: Signed, raw: Option<string>): Option<Claims> {
    match raw
    case None => None
    case Some(token) => if token in signed then Some(signed[token]) else None
  }

  function Seconds(instant: int): int {
    instant / SECOND
  }

  function MintAccess(signed: Signed, user: UserId, jti: string, now: int): Signed {
    signed[jti := Claims(Some(jti), Some(user), Some(Seconds(now + ACCESS_TOKEN_LIFETIME)), false)]
  }

  function MintRefresh(signed: Signed, user: UserId, jti: string, now: int): Signed {
    signed[jti := Claims(Some(jti), Some(user), Some(Seconds(now + REFRESH_TOKEN_LIFETIME)), true)]
  }

  /** How long after minting a token expires. */
  function Lifetime(c: Claims): int {
    if c.isRefresh then REFRESH_TOKEN_LIFETIME else ACCESS_TOKEN_LIFETIME
  }

  /** Puts a presented token's identifier on the blacklist for the rest of its life. */
  function BlacklistIfValid(blacklist: Blacklist, token: Option<Claims>, now: int): Blacklist {
    match token
    case None => blacklist
    case Some(c) =>
      if c.jti.None? || c.jti.value == "" || c.exp.None? || c.exp.value == 0 then blacklist
      else
        var remaining := c.exp.value - Seconds(now);
        if remaining > 0 then SetEx(blacklist, c.jti.value, (), now, remaining * SECOND) else blacklist
  }

  /**
   Expiry as the decoder checks it. Section 4.1.4 of RFC 7519 refuses a token on
   or after its `exp`, which is a `leeway` of 0; a decoder may allow some seconds more.
   */
  predicate Expired(c: Claims, now: int, leeway: nat) {
    c.exp.Some? && c.exp.value + leeway <= Seconds(now)
  }

  /** The user a request acts for, or None where the gate answers 401. */
  function CurrentUser(
    token: Option<Claims>, blacklist: Blacklist, users: set<UserId>, now: int, leeway: nat): Option<UserId>
  {
    match token
    case None => None
    case Some(c) =>
      if Expired(c, now, leeway) then None
      else if c.jti.None? || c.jti.value == "" then None
      else if Visible(blacklist, c.jti.value, now) then None
      else if c.sub.None? || c.sub.value !in users then None
      else c.sub
  }

  /** Every signed token carries its own name and a positive expiry. */
  ghost predicate WellSigned(signed: Signed) {
    forall raw :: raw in signed ==>
      signed[raw].jti == Some(raw) && raw != "" && signed[raw].exp.Some? && signed[raw].exp.value > 0
  }

  /** A token that is past its expiry, or blacklisted until then. */
  ghost predicate Dead(c: Claims, blacklist: Blacklist, now: int)
    requires c.jti.Some? && c.exp.Some?
  {
    || c.exp.value <= Seconds(now)
    || (&& c.jti.value in blacklist
        && (blacklist[c.jti.value].expiresAt.Some? ==>
              c.exp.value * SECOND <= blacklist[c.jti.value].expiresAt.value))
  }

  /** Blacklisting outlives the token: what is presented is dead from then on ... */
  lemma PresentedIsDead(signed: Signed, blacklist: Blacklist, raw: string, now: int)
    requires WellSigned(signed) && raw in signed
    ensures Dead(signed[raw], BlacklistIfValid(blacklist, Decode(signed, Some(raw)), now), now)
  {}

  /** ... whatever tokens are presented later ... */
  lemma DeadStaysDead(signed: Signed, blacklist: Blacklist, c: Claims, raw: Option<string>, now: int, later: int)
    requires WellSigned(signed) && c in signed.Values && now <= later
    requires Dead(c, blacklist, now)
    ensures Dead(c, BlacklistIfValid(blacklist, Decode(signed, raw), later), later)
  {}

  /** ... and the gate refuses it, with a decoder that follows the standard. */
  lemma DeadIsRefused(c: Claims, blacklist: Blacklist, users: set<UserId>, now: int)
    requires c.jti.Some? && c.exp.Some? && Dead(c, blacklist, now)
    ensures CurrentUser(Some(c), blacklist, users, now, 0) == None
  {}

  /**
   The entry's lifetime is exact. A live token of an existing user, presented at
   `now` and not blacklisted before, is refused at every later instant if and only
   if the decoder allows no leeway beyond `exp`.
   */
  lemma RefusedForeverIffNoLeeway(
    signed: Signed, blacklist: Blacklist, users: set<UserId>, raw: string, now: int, leeway: nat)
    requires WellSigned(signed) && raw in signed
    requires signed[raw].sub.Some? && signed[raw].sub.value in users
    requires raw !in blacklist && Seconds(now) < signed[raw].exp.value
    ensures var after := BlacklistIfValid(blacklist, Some(signed[raw]), now);
            (forall later :: now <= later ==> CurrentUser(Some(signed[raw]), after, users, later, leeway) == None)
            <==> leeway == 0
  {
    var c := signed[raw];
    var after := BlacklistIfValid(blacklist, Some(c), now);
    if leeway == 0 {
      forall later | now <= later
        ensures CurrentUser(Some(c), after, users, later, leeway) == None
      {
        DeadIsRefused(c, after, users, later);
      }
    } else {
      var gone := after[raw].expiresAt.value;
      assert Seconds(gone) == c.exp.value;
      assert CurrentUser(Some(c), after, users, gone, leeway) == c.sub;
    }
  }
}
