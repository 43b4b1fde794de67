/** Counting occurrences: GROUP BY a key, COUNT, and ORDER BY count descending, then key. */
module GroupBy {

  /** A key and how often it occurs. */
  type Group = (nat, nat)

  function Occurrences(keys: seq<nat>, k: nat): nat {
    if keys == [] then 0 else
      Occurrences(keys[..|keys| - 1], k) + if keys[|keys| - 1] == k then 1 else 0
  }

  /** Occurrences are counted by position. */
  lemma {:induction false} OccurrencesIsSize(keys: seq<nat>, k: nat)
    ensures Occurrences(keys, k) == |set i | 0 <= i < |keys| && keys[i] == k|
  {
    var at := set i | 0 <= i < |keys| && keys[i] == k;
    if keys == [] {
      assert at == {};
    } else {
      var n := |keys| - 1;
      OccurrencesIsSize(keys[..n], k);
      assert at == (set i | 0 <= i < n && keys[..n][i] == k) + if keys[n] == k then {n} else {};
    }
  }

  /** One group for each key that occurs, with its count. */
  ghost predicate IsGrouping(groups: seq<Group>, keys: seq<nat>) {
    && (forall i, j :: 0 <= i < j < |groups| ==> groups[i].0 != groups[j].0)
    && (forall i :: 0 <= i < |groups| ==> groups[i].1 == Occurrences(keys, groups[i].0) && groups[i].1 > 0)
    && (forall k :: k in keys ==> exists i :: 0 <= i < |groups| && groups[i].0 == k)
  }

  predicate Precedes(g: Group, h: Group) {
    g.1 > h.1 || (g.1 == h.1 && g.0 < h.0)
  }

  predicate Ranked(groups: seq<Group>) {
    forall i, j :: 0 <= i < j < |groups| ==> Precedes(groups[i], groups[j])
  }

  function Total(groups: seq<Group>): nat {
    if groups == [] then 0 else groups[0].1 + Total(groups[1..])
  }

  function Without(keys: seq<nat>, k: nat): seq<nat> {
    if keys == [] then [] else
      Without(keys[..|keys| - 1], k) + if keys[|keys| - 1] == k then [] else [keys[|keys| - 1]]
  }

  lemma {:induction false} WithoutCounts(keys: seq<nat>, k: nat, other: nat)
    ensures |Without(keys, k)| == |keys| - Occurrences(keys, k)
    ensures Occurrences(Without(keys, k), other) == if other == k then 0 else Occurrences(keys, other)
  {
    if keys != [] {
      var rest, last := keys[..|keys| - 1], keys[|keys| - 1];
      WithoutCounts(rest, k, other);
      if last == k {
        assert Without(keys, k) == Without(rest, k);
      } else {
        assert Without(keys, k)[..|Without(rest, k)|] == Without(rest, k);
      }
    }
  }

  lemma {:induction false} OccursIffIn(keys: seq<nat>, k: nat)
    ensures k in keys <==> Occurrences(keys, k) > 0
  {
    if keys != [] {
      OccursIffIn(keys[..|keys| - 1], k);
      assert keys == keys[..|keys| - 1] + [keys[|keys| - 1]];
    }
  }

  /** The counts of a grouping add up to the number of rows. */
  lemma {:induction false} GroupingTotals(groups: seq<Group>, keys: seq<nat>)
    requires IsGrouping(groups, keys)
    ensures Total(groups) == |keys|
    decreases |groups|
  {
    assert keys != [] ==> keys[|keys| - 1] in keys;
    if groups != [] {
      var (k, n) := groups[0];
      var fewer := Without(keys, k);
      WithoutCounts(keys, k, k);
      forall i | 0 <= i < |groups[1..]|
        ensures groups[1..][i].1 == Occurrences(fewer, groups[1..][i].0)
      {
        WithoutCounts(keys, k, groups[1..][i].0);
      }
      forall m | m in fewer
        ensures exists i :: 0 <= i < |groups[1..]| && groups[1..][i].0 == m
      {
        OccursIffIn(fewer, m);
        WithoutCounts(keys, k, m);
        OccursIffIn(keys, m);
        var i :| 0 <= i < |groups| && groups[i].0 == m;
        assert groups[1..][i - 1].0 == m;
      }
      GroupingTotals(groups[1..], fewer);
    }
  }

  lemma InsertingKeepsRank(groups: seq<Group>, i: nat, g: Group)
    requires Ranked(groups) && i <= |groups|
    requires forall k :: 0 <= k < |groups| ==> groups[k].0 != g.0
    requires forall k :: 0 <= k < i ==> Precedes(groups[k], g)
    requires i < |groups| ==> !Precedes(groups[i], g)
    ensures Ranked(groups[..i] + [g] + groups[i..])
  {
    var r := groups[..i] + [g] + groups[i..];
    forall k, m | 0 <= k < m < |r|
      ensures Precedes(r[k], r[m])
    {
      assert r[m] == if m < i then groups[m] else if m == i then g else groups[m - 1];
      assert r[k] == if k < i then groups[k] else if k == i then g else groups[k - 1];
      if k == i { assert Precedes(groups[i], groups[m - 1]) || i == m - 1; }
    }
  }

  function Keys(groups: seq<Group>): set<nat> {
    set i | 0 <= i < |groups| :: groups[i].0
  }

  method Insert(groups: seq<Group>, g: Group) returns (r: seq<Group>)
    requires Ranked(groups) && g.0 !in Keys(groups)
    ensures Ranked(r) && Keys(r) == Keys(groups) + {g.0}
    ensures forall h :: h in r <==> h in groups || h == g
  {
    var i := 0;
    while i < |groups| && Precedes(groups[i], g)
      invariant 0 <= i <= |groups|
      invariant forall k :: 0 <= k < i ==> Precedes(groups[k], g)
    {
      i := i + 1;
    }
    InsertingKeepsRank(groups, i, g);
    hide Ranked, Precedes;
    r := groups[..i] + [g] + groups[i..];
    assert groups == groups[..i] + groups[i..];
    KeysAre(r);
    KeysAre(groups);
  }

  lemma KeysAre(groups: seq<Group>)
    ensures Keys(groups) == set h | h in groups :: h.0
  {}

  method CountKeys(keys: seq<nat>) returns (counts: map<nat, nat>)
    ensures forall k :: k in counts <==> Occurrences(keys, k) > 0
    ensures forall k :: k in counts ==> counts[k] == Occurrences(keys, k)
  {
    counts := map[];
    for i := 0 to |keys|
      invariant forall k :: k in counts <==> Occurrences(keys[..i], k) > 0
      invariant forall k :: k in counts ==> counts[k] == Occurrences(keys[..i], k)
    {
      assert keys[..i + 1][..i] == keys[..i];
      var k := keys[i];
      counts := counts[k := (if k in counts then counts[k] else 0) + 1];
    }
    assert keys[..|keys|] == keys;
  }

  /** The groups of a key sequence, most frequent first, least key first among equals. */
  method GroupAndRank(keys: seq<nat>) returns (groups: seq<Group>)
    ensures IsGrouping(groups, keys) && Ranked(groups)
    ensures Total(groups) == |keys|
  {
    var counts := CountKeys(keys);
    groups := [];
    var rest := counts.Keys;
    while rest != {}
      invariant rest <= counts.Keys
      invariant Ranked(groups) && Keys(groups) == counts.Keys - rest
      invariant forall g :: g in groups ==> g.0 in counts && g.1 == counts[g.0]
      decreases rest
    {
      var k :| k in rest;
      groups := Insert(groups, (k, counts[k]));
      rest := rest - {k};
    }
    forall k | k in keys
      ensures exists i :: 0 <= i < |groups| && groups[i].0 == k
    {
      OccursIffIn(keys, k);
      assert k in Keys(groups);
    }
    GroupingTotals(groups, keys);
  }
}
