/**
 E-mail verification tokens: two Redis indexes, from token hash to user and from
 user to the hash last issued to them, written together and expiring on their own.
 */
module Verification {
  import opened Prelude
  import opened Redis
  import opened Settings

  type UserId = nat

  datatype Index = Index(byHash: Store<string, UserId>, byUser: Store<UserId, string>)

  const EMPTY := Index(map[], map[])

  /** Drops the token last issued to the user, found through the reverse key. */
  function RevokePrevious(ix: Index, user: UserId, now: int): Index {
    match Get(ix.byUser, user, now)
    case None => ix
    case Some(last) => Index(Delete(ix.byHash, last), Delete(ix.byUser, user))
  }

  function StoreToken(ix: Index, user: UserId, hash: string, now: int): Index {
    Index(
      SetEx(ix.byHash, hash, user, now, VERIFICATION_TOKEN_TTL),
      SetEx(ix.byUser, user, hash, now, VERIFICATION_TOKEN_TTL))
  }

  /** What sign-up and resending do: the previous token goes, the new one comes. */
  function Issue(ix: Index, user: UserId, hash: string, now: int): Index {
    StoreToken(RevokePrevious(ix, user, now), user, hash, now)
  }

  /** The user a hash would verify. */
  function Lookup(ix: Index, hash: string, now: int): Option<UserId> {
    Get(ix.byHash, hash, now)
  }

  /** GETDEL of the hash alone: the reverse key stays behind. */
  function Redeem(ix: Index, hash: string, now: int): Index {
    ix.(byHash := Delete(ix.byHash, hash))
  }

  /** GETDEL of the hash, then DEL of the reverse key of the user it named. */
  function Consume(ix: Index, hash: string, now: int): Index {
    match Lookup(ix, hash, now)
    case None => Redeem(ix, hash, now)
    case Some(user) => Redeem(ix, hash, now).(byUser := Delete(ix.byUser, user))
  }

  /** Consuming a token removes it and, if it was live, its user's reverse key; nothing else. */
  lemma ConsumeClears(ix: Index, hash: string, now: int)
    ensures var after := Consume(ix, hash, now);
            && after.byHash == ix.byHash - {hash}
            && after.byUser == if Visible(ix.byHash, hash, now) then ix.byUser - {ix.byHash[hash].value} else ix.byUser
  {}

  /**
   Whenever a hash maps to a user, that user's reverse key maps back to the hash
   and does not vanish before it.
   */
  ghost predicate Agree(ix: Index, now: int) {
    forall h :: Visible(ix.byHash, h, now) ==>
      var user := ix.byHash[h].value;
      && user in ix.byUser && ix.byUser[user].value == h
      && ix.byHash[h].expiresAt.Some?
      && (ix.byUser[user].expiresAt.Some? ==>
            ix.byHash[h].expiresAt.value <= ix.byUser[user].expiresAt.value)
  }

  datatype Call =
    | IssueTo(user: UserId, hash: string, at: int)
    | RedeemAt(hash: string, at: int)
    | ConsumeAt(hash: string, at: int)

  function Step(ix: Index, c: Call): Index {
    match c
    case IssueTo(user, hash, at) => Issue(ix, user, hash, at)
    case RedeemAt(hash, at) => Redeem(ix, hash, at)
    case ConsumeAt(hash, at) => Consume(ix, hash, at)
  }

  function Run(ix: Index, calls: seq<Call>): Index
    decreases |calls|
  {
    if calls == [] then ix else Run(Step(ix, calls[0]), calls[1..])
  }

  predicate Chronological(calls: seq<Call>, start: int) {
    calls == [] || (start <= calls[0].at && Chronological(calls[1..], calls[0].at))
  }

  function EndOf(calls: seq<Call>, start: int): int {
    if calls == [] then start else EndOf(calls[1..], calls[0].at)
  }

  /** The hashes a run issues. */
  function Issued(calls: seq<Call>): set<string> {
    if calls == [] then {} else
      (if calls[0].IssueTo? then {calls[0].hash} else {}) + Issued(calls[1..])
  }

  /** Random tokens do not repeat: no hash is issued twice, nor one of `used`. */
  predicate Fresh(calls: seq<Call>, used: set<string>)
    decreases |calls|
  {
    calls == [] ||
      (if calls[0].IssueTo?
       then calls[0].hash !in used && Fresh(calls[1..], used + {calls[0].hash})
       else Fresh(calls[1..], used))
  }

  lemma {:induction false} FreshOfFewer(calls: seq<Call>, used: set<string>, fewer: set<string>)
    requires Fresh(calls, used) && fewer <= used
    ensures Fresh(calls, fewer)
    decreases |calls|
  {
    if calls != [] {
      if calls[0].IssueTo? {
        FreshOfFewer(calls[1..], used + {calls[0].hash}, fewer + {calls[0].hash});
      } else {
        FreshOfFewer(calls[1..], used, fewer);
      }
    }
  }

  /** The hashes known to the index were issued, and to the user whose reverse key names them. */
  ghost predicate Within(ix: Index, used: set<string>) {
    && ix.byHash.Keys <= used
    && forall u :: u in ix.byUser ==>
         var h := ix.byUser[u].value;
         h in used && (h in ix.byHash ==> ix.byHash[h].value == u)
  }

  function UsedAfter(c: Call, used: set<string>): set<string> {
    if c.IssueTo? then used + {c.hash} else used
  }

  lemma StepKeepsAgree(ix: Index, c: Call, used: set<string>, now: int)
    requires Agree(ix, now) && Within(ix, used) && now <= c.at
    requires c.IssueTo? ==> c.hash !in used
    ensures Agree(Step(ix, c), c.at) && Within(Step(ix, c), UsedAfter(c, used))
  {
    var after := Step(ix, c);
    forall h | Visible(after.byHash, h, c.at)
      ensures var user := after.byHash[h].value;
              && user in after.byUser && after.byUser[user].value == h
              && after.byHash[h].expiresAt.Some?
              && (after.byUser[user].expiresAt.Some? ==>
                    after.byHash[h].expiresAt.value <= after.byUser[user].expiresAt.value)
    {
      if c.IssueTo? && h == c.hash {
      } else {
        assert Visible(ix.byHash, h, now);
      }
    }
  }

  lemma {:induction false} RunKeepsAgree(ix: Index, calls: seq<Call>, used: set<string>, now: int)
    requires Agree(ix, now) && Within(ix, used) && Chronological(calls, now) && Fresh(calls, used)
    ensures Agree(Run(ix, calls), EndOf(calls, now))
    ensures Within(Run(ix, calls), used + Issued(calls))
    decreases |calls|
  {
    if calls != [] {
      StepKeepsAgree(ix, calls[0], used, now);
      RunKeepsAgree(Step(ix, calls[0]), calls[1..], UsedAfter(calls[0], used), calls[0].at);
      assert UsedAfter(calls[0], used) + Issued(calls[1..]) == used + Issued(calls);
    }
  }

  /** In every reachable state a user has at most one redeemable token. */
  lemma OneRedeemablePerUser(calls: seq<Call>, start: int, now: int, h1: string, h2: string)
    requires Chronological(calls, start) && EndOf(calls, start) <= now && Fresh(calls, {})
    requires Lookup(Run(EMPTY, calls), h1, now).Some?
    requires Lookup(Run(EMPTY, calls), h1, now) == Lookup(Run(EMPTY, calls), h2, now)
    ensures h1 == h2
  {
    RunKeepsAgree(EMPTY, calls, {}, start);
    var ix := Run(EMPTY, calls);
    assert Visible(ix.byHash, h1, EndOf(calls, start)) && Visible(ix.byHash, h2, EndOf(calls, start));
  }

  /** No call of the run issues a token to the user. */
  predicate NoIssueTo(calls: seq<Call>, user: UserId) {
    forall i :: 0 <= i < |calls| ==> !(calls[i].IssueTo? && calls[i].user == user)
  }

  lemma {:induction false} ReverseKeyKept(ix: Index, calls: seq<Call>, user: UserId, hash: string)
    requires user in ix.byUser ==> ix.byUser[user].value == hash
    requires NoIssueTo(calls, user)
    ensures var after := Run(ix, calls); user in after.byUser ==> after.byUser[user].value == hash
    decreases |calls|
  {
    if calls != [] {
      assert NoIssueTo([calls[0]], user);
      ReverseKeyKept(Step(ix, calls[0]), calls[1..], user, hash);
    }
  }

  lemma {:induction false} RunJoins(ix: Index, before: seq<Call>, after: seq<Call>)
    ensures Run(ix, before + after) == Run(Run(ix, before), after)
    decreases |before|
  {
    if before == [] {
      assert before + after == after;
    } else {
      assert (before + after)[0] == before[0] && (before + after)[1..] == before[1..] + after;
      RunJoins(Step(ix, before[0]), before[1..], after);
    }
  }

  /**
   What can be redeemed for a user is the token issued to them last: after it was
   issued, with no later issue to them, no other hash verifies that user.
   */
  lemma OnlyLatestRedeems(
    before: seq<Call>, c: Call, after: seq<Call>, start: int, now: int, h: string)
    requires c.IssueTo? && NoIssueTo(after, c.user)
    requires var calls := before + [c] + after;
             Chronological(calls, start) && EndOf(calls, start) <= now && Fresh(calls, {})
    requires Lookup(Run(EMPTY, before + [c] + after), h, now) == Some(c.user)
    ensures h == c.hash
  {
    var calls := before + [c] + after;
    RunKeepsAgree(EMPTY, calls, {}, start);
    RunJoins(EMPTY, before + [c], after);
    RunJoins(EMPTY, before, [c]);
    var issued := Run(EMPTY, before + [c]);
    assert issued == Run(Step(Run(EMPTY, before), c), []);
    ReverseKeyKept(issued, after, c.user, c.hash);
    assert Visible(Run(EMPTY, calls).byHash, h, EndOf(calls, start));
  }

  /** How often redeeming or consuming `hash` yields a user. */
  function Successes(ix: Index, calls: seq<Call>, hash: string): nat
    decreases |calls|
  {
    if calls == [] then 0 else
      (if !calls[0].IssueTo? && calls[0].hash == hash && Lookup(ix, hash, calls[0].at).Some? then 1 else 0)
      + Successes(Step(ix, calls[0]), calls[1..], hash)
  }

  lemma {:induction false} SuccessesBounded(ix: Index, calls: seq<Call>, used: set<string>, hash: string)
    requires Within(ix, used) && Fresh(calls, used)
    ensures Successes(ix, calls, hash) <= if hash in used && hash !in ix.byHash then 0 else 1
    decreases |calls|
  {
    if calls != [] {
      var c := calls[0];
      SuccessesBounded(Step(ix, c), calls[1..], UsedAfter(c, used), hash);
    }
  }

  /** Over a whole run every token is redeemed at most once. */
  lemma RedeemedOnce(calls: seq<Call>, hash: string)
    requires Fresh(calls, {})
    ensures Successes(EMPTY, calls, hash) <= 1
  {
    SuccessesBounded(EMPTY, calls, {}, hash);
  }
}
