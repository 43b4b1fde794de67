/**
 Redacting a query string before it is logged. Dictionaries keep insertion order,
 and writing a key again leaves it where it was. Which names are sensitive is a
 parameter throughout.
 */
module QuerySanitizer {
  import opened Prelude

  type Params = seq<(string, string)>

  const REDACTED := "[REDACTED]"

  // ----- Splitting and joining -----

  function Split(s: string): (pieces: seq<string>)
    ensures pieces != []
  {
    if s == "" then [""]
    else if s[0] == '&' then [""] + Split(s[1..])
    else
      var rest := Split(s[1..]);
      [[s[0]] + rest[0]] + rest[1..]
  }

  function Join(pieces: seq<string>): string
    requires pieces != []
  {
    if |pieces| == 1 then pieces[0] else pieces[0] + "&" + Join(pieces[1..])
  }

  predicate IsPiece(piece: string) {
    '&' !in piece
  }

  /** Splitting cuts at every ampersand and loses nothing. */
  lemma {:induction false} SplitCuts(s: string)
    ensures forall i :: 0 <= i < |Split(s)| ==> IsPiece(Split(s)[i])
    ensures Join(Split(s)) == s
  {
    if s != "" {
      SplitCuts(s[1..]);
      var rest := Split(s[1..]);
      if s[0] == '&' {
        assert Split(s)[1..] == rest;
      } else {
        assert Split(s)[1..] == rest[1..];
      }
    }
  }

  lemma {:induction false} SplitAtAmpersand(piece: string, rest: string)
    requires IsPiece(piece)
    ensures Split(piece) == [piece]
    ensures Split(piece + "&" + rest) == [piece] + Split(rest)
  {
    if piece == "" {
      assert piece + "&" + rest == "&" + rest;
    } else {
      SplitAtAmpersand(piece[1..], rest);
      assert [piece[0]] + piece[1..] == piece;
      assert (piece + "&" + rest)[1..] == piece[1..] + "&" + rest;
    }
  }

  lemma {:induction false} SplitOfJoin(pieces: seq<string>)
    requires pieces != [] && forall i :: 0 <= i < |pieces| ==> IsPiece(pieces[i])
    ensures Split(Join(pieces)) == pieces
    decreases |pieces|
  {
    if |pieces| == 1 {
      SplitAtAmpersand(pieces[0], "");
    } else {
      SplitAtAmpersand(pieces[0], Join(pieces[1..]));
      SplitOfJoin(pieces[1..]);
    }
  }

  // ----- One pair -----

  function EqualsAt(piece: string): (at: nat)
    ensures at <= |piece| && forall i :: 0 <= i < at ==> piece[i] != '='
    ensures at < |piece| ==> piece[at] == '='
  {
    if piece == "" || piece[0] == '=' then 0
    else 1 + EqualsAt(piece[1..])
  }

  function Key(piece: string): string {
    piece[..EqualsAt(piece)]
  }

  /** What follows the first equals sign; nothing when there is none. */
  function Value(piece: string): string {
    var at := EqualsAt(piece);
    if at < |piece| then piece[at + 1..] else ""
  }

  function Pair(key: string, value: string): string {
    key + "=" + value
  }

  lemma PairReadsBack(key: string, value: string)
    requires '=' !in key
    ensures Key(Pair(key, value)) == key && Value(Pair(key, value)) == value
  {
    var pair := Pair(key, value);
    assert pair[|key|] == '=' && forall i :: 0 <= i < |key| ==> pair[i] == key[i];
    assert EqualsAt(pair) == |key|;
  }

  // ----- The dictionary -----

  function IndexOf(params: Params, key: string): (i: nat)
    ensures i <= |params|
    ensures i < |params| ==> params[i].0 == key
    ensures forall j :: 0 <= j < i ==> params[j].0 != key
  {
    if params == [] || params[0].0 == key then 0 else 1 + IndexOf(params[1..], key)
  }

  lemma IndexIs(params: Params, key: string, i: nat)
    requires i <= |params| && (i < |params| ==> params[i].0 == key)
    requires forall j :: 0 <= j < i ==> params[j].0 != key
    ensures IndexOf(params, key) == i
  {}

  function Put(params: Params, key: string, value: string): Params {
    var i := IndexOf(params, key);
    if i < |params| then params[i := (key, value)] else params + [(key, value)]
  }

  function Lookup(params: Params, key: string): Option<string> {
    var i := IndexOf(params, key);
    if i < |params| then Some(params[i].1) else None
  }

  function Parse(pieces: seq<string>): Params {
    if pieces == [] then [] else
      Put(Parse(pieces[..|pieces| - 1]), Key(pieces[|pieces| - 1]), Value(pieces[|pieces| - 1]))
  }

  function Redact(sensitive: string -> bool, params: Params): (r: Params)
    ensures |r| == |params|
  {
    seq(|params|, i requires 0 <= i < |params| =>
      if sensitive(params[i].0) then (params[i].0, REDACTED) else params[i])
  }

  function Print(params: Params): string
    requires params != []
  {
    Join(seq(|params|, i requires 0 <= i < |params| => Pair(params[i].0, params[i].1)))
  }

  function Sanitized(sensitive: string -> bool, query: string): string {
    if query == "" then "" else
      ParsedNotEmpty(Split(query));
      Print(Redact(sensitive, Parse(Split(query))))
  }

  lemma ParsedNotEmpty(pieces: seq<string>)
    requires pieces != []
    ensures Parse(pieces) != []
  {}

  // ----- Printing and parsing back -----

  /** Distinct keys without separators, values without ampersands. */
  ghost predicate Clean(params: Params) {
    && (forall i :: 0 <= i < |params| ==> CleanPair(params[i]))
    && (forall i, j :: 0 <= i < j < |params| ==> params[i].0 != params[j].0)
  }

  predicate CleanPair(p: (string, string)) {
    '=' !in p.0 && IsPiece(p.0) && IsPiece(p.1)
  }

  lemma PutKeepsClean(params: Params, key: string, value: string)
    requires Clean(params) && CleanPair((key, value))
    ensures Clean(Put(params, key, value))
  {}

  lemma {:induction false} ParsedIsClean(pieces: seq<string>)
    requires forall i :: 0 <= i < |pieces| ==> IsPiece(pieces[i])
    ensures Clean(Parse(pieces))
  {
    if pieces != [] {
      var last := pieces[|pieces| - 1];
      ParsedIsClean(pieces[..|pieces| - 1]);
      PutKeepsClean(Parse(pieces[..|pieces| - 1]), Key(last), Value(last));
    }
  }

  lemma {:induction false} PairsParse(params: Params, pieces: seq<string>)
    requires Clean(params) && |pieces| == |params|
    requires forall i :: 0 <= i < |params| ==> pieces[i] == Pair(params[i].0, params[i].1)
    ensures Parse(pieces) == params
    decreases |params|
  {
    if params != [] {
      var n := |params| - 1;
      PairsParse(params[..n], pieces[..n]);
      PairReadsBack(params[n].0, params[n].1);
      IndexIs(params[..n], params[n].0, n);
      hide Pair, Key, Value, EqualsAt, IndexOf;
      assert Parse(pieces) == Put(params[..n], params[n].0, params[n].1);
    }
  }

  /** A printed dictionary parses back to itself: same keys, same values, same order. */
  lemma PrintParses(params: Params)
    requires Clean(params) && params != []
    ensures Print(params) != ""
    ensures Parse(Split(Print(params))) == params
  {
    var pieces := seq(|params|, i requires 0 <= i < |params| => Pair(params[i].0, params[i].1));
    SplitOfJoin(pieces);
    PairsParse(params, pieces);
    assert pieces[0] != "";
  }

  lemma RedactIsClean(sensitive: string -> bool, params: Params)
    requires Clean(params)
    ensures Clean(Redact(sensitive, params))
  {}

  lemma RedactTwice(sensitive: string -> bool, params: Params)
    ensures Redact(sensitive, Redact(sensitive, params)) == Redact(sensitive, params)
  {}

  /** What the sanitised query says when it is read again. */
  lemma SanitizedReads(sensitive: string -> bool, query: string)
    requires query != ""
    ensures Sanitized(sensitive, query) != ""
    ensures Parse(Split(Sanitized(sensitive, query))) == Redact(sensitive, Parse(Split(query)))
  {
    var params := Parse(Split(query));
    ParsedNotEmpty(Split(query));
    SplitCuts(query);
    ParsedIsClean(Split(query));
    RedactIsClean(sensitive, params);
    PrintParses(Redact(sensitive, params));
  }

  /** Sanitising a sanitised query changes nothing, whatever the query was. */
  lemma Idempotent(sensitive: string -> bool, query: string)
    ensures Sanitized(sensitive, Sanitized(sensitive, query)) == Sanitized(sensitive, query)
  {
    if query != "" {
      SanitizedReads(sensitive, query);
      RedactTwice(sensitive, Parse(Split(query)));
      ParsedNotEmpty(Split(query));
    }
  }

  // ----- What the output shows, and what it hides -----

  predicate IsLast(pieces: seq<string>, i: nat) {
    && i < |pieces|
    && forall j :: i < j < |pieces| ==> Key(pieces[j]) != Key(pieces[i])
  }

  lemma PutThenLookup(params: Params, key: string, value: string, other: string)
    ensures Lookup(Put(params, key, value), other) == if other == key then Some(value) else Lookup(params, other)
  {
    var r := Put(params, key, value);
    assert forall k :: 0 <= k < |params| ==> r[k].0 == params[k].0;
    var i := IndexOf(params, other);
    if i < |params| || other == key {
      IndexIs(r, other, i);
    } else {
      IndexIs(r, other, |r|);
    }
  }

  /** The last value given for a key wins. */
  lemma {:induction false} LastWins(pieces: seq<string>, i: nat)
    requires IsLast(pieces, i)
    ensures Lookup(Parse(pieces), Key(pieces[i])) == Some(Value(pieces[i]))
    decreases |pieces|
  {
    var n := |pieces| - 1;
    var earlier := Parse(pieces[..n]);
    assert Parse(pieces) == Put(earlier, Key(pieces[n]), Value(pieces[n]));
    hide Put, Key, Value, Lookup;
    PutThenLookup(earlier, Key(pieces[n]), Value(pieces[n]), Key(pieces[i]));
    if i < n {
      assert Key(pieces[n]) != Key(pieces[i]);
      LastWins(pieces[..n], i);
    }
  }

  predicate IsFirst(pieces: seq<string>, i: nat) {
    && i < |pieces|
    && forall j :: 0 <= j < i ==> Key(pieces[j]) != Key(pieces[i])
  }

  lemma PutThenIndex(params: Params, key: string, value: string, other: string)
    ensures IndexOf(Put(params, key, value), other)
            == if IndexOf(params, other) < |params| || other == key then IndexOf(params, other)
               else |Put(params, key, value)|
  {
    var r := Put(params, key, value);
    var i := IndexOf(params, other);
    assert forall k :: 0 <= k < |params| ==> r[k].0 == params[k].0;
    IndexIs(r, other, if i < |params| || other == key then i else |r|);
  }

  /** A key is in the dictionary exactly if some piece has it. */
  lemma {:induction false} ParsedKeys(pieces: seq<string>, key: string)
    ensures IndexOf(Parse(pieces), key) < |Parse(pieces)| <==> exists i :: 0 <= i < |pieces| && Key(pieces[i]) == key
  {
    if pieces != [] {
      var n := |pieces| - 1;
      var earlier := Parse(pieces[..n]);
      ParsedKeys(pieces[..n], key);
      PutThenIndex(earlier, Key(pieces[n]), Value(pieces[n]), key);
      assert |Put(earlier, Key(pieces[n]), Value(pieces[n]))| >= |earlier|;
      assert forall i :: 0 <= i < n ==> pieces[..n][i] == pieces[i];
      if IndexOf(earlier, key) < |earlier| {
        var i :| 0 <= i < n && Key(pieces[..n][i]) == key;
        assert Key(pieces[i]) == key;
      }
      hide Key, Value;
    }
  }

  /** Keys stand in the order in which they first occur. */
  lemma {:induction false} KeysKeepTheirOrder(pieces: seq<string>, i: nat, j: nat)
    requires i < j && IsFirst(pieces, i) && IsFirst(pieces, j)
    ensures IndexOf(Parse(pieces), Key(pieces[i])) < IndexOf(Parse(pieces), Key(pieces[j])) < |Parse(pieces)|
    decreases |pieces|
  {
    var n := |pieces| - 1;
    var earlier := Parse(pieces[..n]);
    var (key, value) := (Key(pieces[n]), Value(pieces[n]));
    PutThenIndex(earlier, key, value, Key(pieces[i]));
    PutThenIndex(earlier, key, value, Key(pieces[j]));
    ParsedKeys(pieces[..n], Key(pieces[i]));
    ParsedKeys(pieces[..n], Key(pieces[j]));
    ParsedKeys(pieces, Key(pieces[j]));
    assert Key(pieces[..n][i]) == Key(pieces[i]);
    hide Key, Value, Put, IndexOf;
    assert Parse(pieces) == Put(earlier, key, value);
    if j < n {
      KeysKeepTheirOrder(pieces[..n], i, j);
    }
  }

  lemma RedactThenLookup(sensitive: string -> bool, params: Params, key: string)
    ensures Lookup(Redact(sensitive, params), key)
            == if Lookup(params, key).Some? && sensitive(key) then Some(REDACTED) else Lookup(params, key)
  {
    assert forall k :: 0 <= k < |params| ==> Redact(sensitive, params)[k].0 == params[k].0;
    IndexIs(Redact(sensitive, params), key, IndexOf(params, key));
  }

  /** Every key of a query is still there: redacted if sensitive, with its last value if not. */
  lemma EveryKeyIsShown(sensitive: string -> bool, query: string, i: nat)
    requires query != "" && IsLast(Split(query), i)
    ensures var piece := Split(query)[i];
            Lookup(Parse(Split(Sanitized(sensitive, query))), Key(piece))
            == Some(if sensitive(Key(piece)) then REDACTED else Value(piece))
  {
    SanitizedReads(sensitive, query);
    LastWins(Split(query), i);
    RedactThenLookup(sensitive, Parse(Split(query)), Key(Split(query)[i]));
  }

  /** A dictionary without the values of its sensitive keys. */
  function Shown(sensitive: string -> bool, params: Params): (r: seq<(string, Option<string>)>)
    ensures |r| == |params|
  {
    seq(|params|, i requires 0 <= i < |params| =>
      (params[i].0, if sensitive(params[i].0) then None else Some(params[i].1)))
  }

  lemma RedactedIffShown(sensitive: string -> bool, p: Params, q: Params)
    ensures Redact(sensitive, p) == Redact(sensitive, q) <==> Shown(sensitive, p) == Shown(sensitive, q)
  {
    if Redact(sensitive, p) == Redact(sensitive, q) {
      forall i | 0 <= i < |p|
        ensures Shown(sensitive, p)[i] == Shown(sensitive, q)[i]
      {
        assert Redact(sensitive, p)[i] == Redact(sensitive, q)[i];
      }
    }
    if Shown(sensitive, p) == Shown(sensitive, q) {
      forall i | 0 <= i < |p|
        ensures Redact(sensitive, p)[i] == Redact(sensitive, q)[i]
      {
        assert Shown(sensitive, p)[i] == Shown(sensitive, q)[i];
      }
      assert |p| == |Shown(sensitive, p)| == |q|;
    }
  }

  /**
   Two queries come out the same if and only if they agree on everything except the
   values of sensitive keys: nothing secret leaks, and nothing else is lost.
   */
  lemma SameOutputIffSameShown(sensitive: string -> bool, a: string, b: string)
    requires a != "" && b != ""
    ensures Sanitized(sensitive, a) == Sanitized(sensitive, b)
            <==> Shown(sensitive, Parse(Split(a))) == Shown(sensitive, Parse(Split(b)))
  {
    SanitizedReads(sensitive, a);
    SanitizedReads(sensitive, b);
    ParsedNotEmpty(Split(a));
    ParsedNotEmpty(Split(b));
    RedactedIffShown(sensitive, Parse(Split(a)), Parse(Split(b)));
  }

  /** The pieces are the same one by one, but for what follows a sensitive key. */
  ghost predicate SameButSecrets(sensitive: string -> bool, a: seq<string>, b: seq<string>) {
    && |a| == |b|
    && forall i :: 0 <= i < |a| ==> SamePiece(sensitive, a[i], b[i])
  }

  predicate SamePiece(sensitive: string -> bool, a: string, b: string) {
    a == b || (Key(a) == Key(b) && sensitive(Key(a)))
  }

  lemma PutShows(sensitive: string -> bool, p: Params, q: Params, key: string, v: string, w: string)
    requires Shown(sensitive, p) == Shown(sensitive, q)
    requires v == w || sensitive(key)
    ensures Shown(sensitive, Put(p, key, v)) == Shown(sensitive, Put(q, key, w))
  {
    assert |p| == |Shown(sensitive, p)| == |q|;
    assert forall i :: 0 <= i < |p| ==> Shown(sensitive, p)[i].0 == p[i].0 && Shown(sensitive, q)[i].0 == q[i].0;
    assert IndexOf(p, key) == IndexOf(q, key);
    forall i | 0 <= i < |Put(p, key, v)|
      ensures Shown(sensitive, Put(p, key, v))[i] == Shown(sensitive, Put(q, key, w))[i]
    {
      if i < |p| {
        assert Shown(sensitive, p)[i] == Shown(sensitive, q)[i];
      }
    }
  }

  lemma {:induction false} SecretsNeverShow(sensitive: string -> bool, a: seq<string>, b: seq<string>)
    requires SameButSecrets(sensitive, a, b)
    ensures Shown(sensitive, Parse(a)) == Shown(sensitive, Parse(b))
    decreases |a|
  {
    if a != [] {
      var n := |a| - 1;
      SecretsNeverShow(sensitive, a[..n], b[..n]);
      assert SamePiece(sensitive, a[n], b[n]);
      PutShows(sensitive, Parse(a[..n]), Parse(b[..n]), Key(a[n]), Value(a[n]), Value(b[n]));
    }
  }

  /**
   Changing values under sensitive keys never changes the output. None of the
   configured names matches the empty key; were it sensitive, the empty query would
   have to be kept apart, for it is never printed as a pair.
   */
  lemma SecretsDoNotInterfere(sensitive: string -> bool, a: string, b: string)
    requires SameButSecrets(sensitive, Split(a), Split(b))
    requires sensitive("") ==> (a == "" <==> b == "")
    ensures Sanitized(sensitive, a) == Sanitized(sensitive, b)
  {
    SplitCuts(a);
    SplitCuts(b);
    if a == "" || b == "" {
      assert SamePiece(sensitive, Split(a)[0], Split(b)[0]);
    } else {
      SecretsNeverShow(sensitive, Split(a), Split(b));
      SameOutputIffSameShown(sensitive, a, b);
    }
  }

  // ----- The operation -----

  method SanitizeQuery(sensitive: string -> bool, query: string) returns (r: string)
    ensures r == Sanitized(sensitive, query)
  {
    if query == "" {
      return "";
    }
    var pieces := Split(query);
    SplitCuts(query);
    ParsedNotEmpty(pieces);
    var params: Params := [];
    for i := 0 to |pieces|
      invariant params == Parse(pieces[..i])
    {
      assert pieces[..i + 1][..i] == pieces[..i];
      if '=' in pieces[i] {
        params := Put(params, Key(pieces[i]), Value(pieces[i]));
      } else {
        WithoutEquals(pieces[i]);
        params := Put(params, pieces[i], "");
      }
    }
    assert pieces[..|pieces|] == pieces;
    ParsedIsClean(pieces);
    var redacted: Params := [];
    for i := 0 to |params|
      invariant redacted == Redact(sensitive, params)[..i]
    {
      var (key, value) := params[i];
      FreshKeyAppends(sensitive, params, i);
      redacted := Put(redacted, key, if sensitive(key) then REDACTED else value);
    }
    assert redacted == Redact(sensitive, params);
    r := Print(redacted);
  }

  lemma WithoutEquals(piece: string)
    requires '=' !in piece
    ensures Key(piece) == piece && Value(piece) == ""
  {}

  lemma FreshKeyAppends(sensitive: string -> bool, params: Params, i: nat)
    requires Clean(params) && i < |params|
    ensures var redacted := Redact(sensitive, params);
            Put(redacted[..i], redacted[i].0, redacted[i].1) == redacted[..i + 1]
  {
    var redacted := Redact(sensitive, params);
    RedactIsClean(sensitive, params);
    IndexIs(redacted[..i], redacted[i].0, i);
  }
}
