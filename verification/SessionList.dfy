/** The list of a user's active sessions: counted, ordered by last use and cut into pages. */
module SessionList {
  import opened Prelude
  import opened AccessTokens
  import opened Sessions
  import opened SessionInvariants

  datatype SessionView = SessionView(token: string, isCurrent: bool)

  /** Descending order of last use, rows never used last. */
  predicate NotBefore(a: Row, b: Row) {
    b.lastUsed.None? || (a.lastUsed.Some? && a.lastUsed.value >= b.lastUsed.value)
  }

  ghost predicate Ordered(tokens: Tokens, order: seq<string>) {
    && (forall h :: h in order ==> h in tokens)
    && forall i, j :: 0 <= i < j < |order| ==> NotBefore(tokens[order[i]], tokens[order[j]])
  }

  function Elements(order: seq<string>): set<string> {
    set h | h in order
  }

  lemma {:induction false} DistinctCounts(order: seq<string>)
    requires Distinct(order)
    ensures |Elements(order)| == |order|
  {
    if order != [] {
      DistinctCounts(order[1..]);
      assert Elements(order) == Elements(order[1..]) + {order[0]};
    }
  }

  lemma InsertingKeepsOrder(tokens: Tokens, order: seq<string>, i: nat, h: string)
    requires Ordered(tokens, order) && h in tokens && i <= |order|
    requires forall k :: 0 <= k < i ==> NotBefore(tokens[order[k]], tokens[h])
    requires i < |order| ==> !NotBefore(tokens[order[i]], tokens[h])
    ensures Ordered(tokens, order[..i] + [h] + order[i..])
  {
    var r := order[..i] + [h] + order[i..];
    forall k, m | 0 <= k < m < |r|
      ensures NotBefore(tokens[r[k]], tokens[r[m]])
    {
      assert r[m] == if m < i then order[m] else if m == i then h else order[m - 1];
      assert r[k] == if k < i then order[k] else if k == i then h else order[k - 1];
      if k == i { assert NotBefore(tokens[order[i]], tokens[order[m - 1]]) || i == m - 1; }
    }
  }

  method Insert(tokens: Tokens, order: seq<string>, h: string) returns (r: seq<string>)
    requires Ordered(tokens, order) && Distinct(order) && h in tokens && h !in Elements(order)
    ensures Ordered(tokens, r) && Distinct(r) && Elements(r) == Elements(order) + {h}
  {
    var i := 0;
    while i < |order| && NotBefore(tokens[order[i]], tokens[h])
      invariant 0 <= i <= |order|
      invariant forall k :: 0 <= k < i ==> NotBefore(tokens[order[k]], tokens[h])
    {
      i := i + 1;
    }
    InsertingKeepsOrder(tokens, order, i, h);
    hide Ordered, NotBefore;
    r := order[..i] + [h] + order[i..];
    assert h !in order;
    assert order == order[..i] + order[i..];
    assert Elements(r) == Elements(order) + {h};
  }

  method ActiveInOrder(tokens: Tokens, user: UserId, now: int) returns (order: seq<string>)
    ensures Ordered(tokens, order) && Distinct(order)
    ensures Elements(order) == ActiveSessions(tokens, user, now)
  {
    order := [];
    var rest := tokens.Keys;
    while rest != {}
      invariant rest <= tokens.Keys
      invariant Ordered(tokens, order) && Distinct(order)
      invariant Elements(order) == set h | h in tokens && h !in rest && Active(tokens[h], user, now)
      decreases rest
    {
      var h :| h in rest;
      if Active(tokens[h], user, now) {
        order := Insert(tokens, order, h);
      }
      rest := rest - {h};
    }
  }

  /** OFFSET and LIMIT. */
  method Slice(tokens: Tokens, listed: seq<string>, current: Option<Family>, offset: nat, limit: nat)
    returns (sessions: seq<SessionView>)
    requires forall h :: h in listed ==> h in tokens
    ensures |sessions| == if |listed| <= offset then 0
                          else if |listed| <= offset + limit then |listed| - offset else limit
    ensures forall i :: 0 <= i < |sessions| ==>
              sessions[i] == SessionView(listed[offset + i], current == Some(tokens[listed[offset + i]].family))
  {
    sessions := [];
    while |sessions| < limit && offset + |sessions| < |listed|
      invariant |sessions| <= limit
      invariant |sessions| == 0 || offset + |sessions| <= |listed|
      invariant forall i :: 0 <= i < |sessions| ==>
                  sessions[i] == SessionView(listed[offset + i], current == Some(tokens[listed[offset + i]].family))
      decreases limit - |sessions|
    {
      var h := listed[offset + |sessions|];
      sessions := sessions + [SessionView(h, current == Some(tokens[h].family))];
    }
  }

  lemma OneOfAFamily(
    tokens: Tokens, user: UserId, now: int, order: seq<string>, chains: Chains, signed: Signed, i: nat, j: nat)
    requires FamiliesSound(tokens, chains, signed)
    requires Distinct(order) && Elements(order) == ActiveSessions(tokens, user, now)
    requires i < |order| && j < |order|
    ensures order[i] in tokens && order[j] in tokens
    ensures tokens[order[i]].family == tokens[order[j]].family ==> i == j
  {
    assert order[i] in Elements(order) && order[j] in Elements(order);
    UnrevokedIsNewest(tokens, chains, signed, order[i]);
    UnrevokedIsNewest(tokens, chains, signed, order[j]);
    hide FamiliesSound, Present;
  }

  /**
   One page of the list. The total counts every active session, the page is a
   slice of them all in order, and at most one session on it is the current one.
   */
  method ListUserSessions(
    tokens: Tokens, user: UserId, current: Option<Family>, page: int, limit: int, now: int,
    ghost chains: Chains, ghost signed: Signed)
    returns (sessions: seq<SessionView>, total: nat, order: seq<string>)
    requires FamiliesSound(tokens, chains, signed)
    requires 1 <= page && 1 <= limit
    ensures total == |ActiveSessions(tokens, user, now)|
    ensures forall h :: h in ActiveSessions(tokens, user, now) <==>
              h in tokens && tokens[h].user == user && !tokens[h].revoked && now < tokens[h].expiresAt
    ensures forall i, j :: 0 <= i < j < |order| && order[i] in tokens && order[j] in tokens ==>
              tokens[order[j]].lastUsed.Some? ==>
                && tokens[order[i]].lastUsed.Some?
                && tokens[order[i]].lastUsed.value >= tokens[order[j]].lastUsed.value
    ensures Ordered(tokens, order) && Distinct(order) && Elements(order) == ActiveSessions(tokens, user, now)
    ensures var offset: int := (page - 1) * limit;
            |sessions| == if |order| <= offset then 0 else if |order| <= offset + limit then |order| - offset else limit
    ensures var offset: int := (page - 1) * limit;
            0 <= offset && forall i :: 0 <= i < |sessions| ==>
              && offset + i < |order|
              && sessions[i] == SessionView(order[offset + i], current == Some(tokens[order[offset + i]].family))
    ensures forall i, j | 0 <= i < |sessions| && 0 <= j < |sessions| ::
              sessions[i].isCurrent && sessions[j].isCurrent ==> i == j
  {
    hide FamiliesSound, Distinct;
    order := ActiveInOrder(tokens, user, now);
    DistinctCounts(order);
    total := |order|;
    var offset: int := (page - 1) * limit;
    assert 0 <= offset;
    sessions := Slice(tokens, order, current, offset, limit);
    forall i, j | 0 <= i < |sessions| && 0 <= j < |sessions| && sessions[i].isCurrent && sessions[j].isCurrent
      ensures i == j
    {
      OneOfAFamily(tokens, user, now, order, chains, signed, offset + i, offset + j);
    }
  }
}
