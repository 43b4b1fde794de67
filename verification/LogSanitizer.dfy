/**
 Sanitising structured values before they are logged: secrets redacted, long lists
 cut, deep nesting replaced by a marker. The names that count as sensitive and the
 treatment of plain text are parameters.
 */
module LogSanitizer {
  import opened Prelude

  const REDACTED := "[REDACTED]"
  const TOO_DEEP := "<max_depth_reached>"
  const MAX_DEPTH: nat := 5
  const MAX_ITEMS: nat := 10

  /** Dictionaries in insertion order; whatever is neither container nor scalar is its text. */
  datatype Value =
    | Null
    | Scalar(number: int)
    | Text(text: string)
    | Dict(fields: seq<(string, Value)>)
    | List(items: seq<Value>)

  datatype Rules = Rules(sensitive: string -> bool, clean: string -> string)

  // ----- What sanitising yields -----

  function Sanitized(rules: Rules, v: Value, depth: int): Value
    decreases v
  {
    match v
    case Null => Null
    case Scalar(_) => v
    case Text(s) => Text(rules.clean(s))
    case Dict(fields) =>
      if depth <= 0 then Dict([(TOO_DEEP, Text("..."))]) else
        Dict(seq(|fields|, i requires 0 <= i < |fields| => SanitizedField(rules, v, i, depth - 1)))
    case List(items) =>
      if depth <= 0 then List([Text(TOO_DEEP)]) else
        List(seq(Shown(items), i requires 0 <= i < Shown(items) => Sanitized(rules, items[i], depth - 1)))
  }

  function SanitizedField(rules: Rules, v: Value, i: nat, depth: int): (string, Value)
    requires v.Dict? && i < |v.fields|
    decreases v, 0
  {
    var (key, value) := v.fields[i];
    (key, if rules.sensitive(key) then Text(REDACTED) else Sanitized(rules, value, depth))
  }

  function Shown(items: seq<Value>): (n: nat) {
    if |items| <= MAX_ITEMS then |items| else MAX_ITEMS
  }

  // ----- The operations -----

  method SanitizeValue(rules: Rules, v: Value, depth: int) returns (r: Value)
    ensures r == Sanitized(rules, v, depth)
    decreases v, 1
  {
    match v
    case Null => r := Null;
    case Scalar(_) => r := v;
    case Text(s) => r := Text(rules.clean(s));
    case Dict(_) => r := SanitizeDict(rules, v, depth);
    case List(_) => r := SanitizeList(rules, v, depth);
  }

  method SanitizeDict(rules: Rules, v: Value, depth: int) returns (r: Value)
    requires v.Dict?
    ensures r == Sanitized(rules, v, depth)
    decreases v, 0
  {
    if depth <= 0 {
      return Dict([(TOO_DEEP, Text("..."))]);
    }
    var sanitized: seq<(string, Value)> := [];
    for i := 0 to |v.fields|
      invariant |sanitized| == i
      invariant forall k :: 0 <= k < i ==> sanitized[k] == SanitizedField(rules, v, k, depth - 1)
    {
      var (key, value) := v.fields[i];
      if rules.sensitive(key) {
        sanitized := sanitized + [(key, Text(REDACTED))];
      } else {
        var inner := SanitizeValue(rules, value, depth - 1);
        sanitized := sanitized + [(key, inner)];
      }
    }
    r := Dict(sanitized);
    assert sanitized == Sanitized(rules, v, depth).fields;
  }

  method SanitizeList(rules: Rules, v: Value, depth: int) returns (r: Value)
    requires v.List?
    ensures r == Sanitized(rules, v, depth)
    decreases v, 0
  {
    if depth <= 0 {
      return List([Text(TOO_DEEP)]);
    }
    var sanitized: seq<Value> := [];
    for i := 0 to Shown(v.items)
      invariant |sanitized| == i
      invariant forall k :: 0 <= k < i ==> sanitized[k] == Sanitized(rules, v.items[k], depth - 1)
    {
      var inner := SanitizeValue(rules, v.items[i], depth - 1);
      sanitized := sanitized + [inner];
    }
    r := List(sanitized);
    assert sanitized == Sanitized(rules, v, depth).items;
  }

  // ----- What a log line can contain -----

  /** Nothing secret, nothing long, nothing deep, and no text but cleaned text and the markers. */
  ghost predicate Safe(rules: Rules, v: Value, depth: nat)
    decreases v
  {
    match v
    case Null => true
    case Scalar(_) => true
    case Text(s) => s == TOO_DEEP || s == "..." || exists raw :: s == rules.clean(raw)
    case Dict(fields) =>
      || v == Dict([(TOO_DEEP, Text("..."))])
      || (depth > 0 && forall i :: 0 <= i < |fields| ==>
            if rules.sensitive(fields[i].0) then fields[i].1 == Text(REDACTED)
            else Safe(rules, fields[i].1, depth - 1))
    case List(items) =>
      || v == List([Text(TOO_DEEP)])
      || (depth > 0 && |items| <= MAX_ITEMS && forall i :: 0 <= i < |items| ==> Safe(rules, items[i], depth - 1))
  }

  lemma {:induction false} SanitizedIsSafe(rules: Rules, v: Value, depth: nat)
    ensures Safe(rules, Sanitized(rules, v, depth), depth)
    decreases v
  {
    if v.Dict? && depth > 0 {
      var r := Sanitized(rules, v, depth);
      forall i | 0 <= i < |v.fields| && !rules.sensitive(v.fields[i].0)
        ensures Safe(rules, r.fields[i].1, depth - 1)
      {
        SanitizedIsSafe(rules, v.fields[i].1, depth - 1);
        assert r.fields[i] == SanitizedField(rules, v, i, depth - 1);
      }
    }
    if v.List? && depth > 0 {
      forall i | 0 <= i < Shown(v.items)
        ensures Safe(rules, Sanitized(rules, v.items[i], depth - 1), depth - 1)
      {
        SanitizedIsSafe(rules, v.items[i], depth - 1);
      }
    }
  }

  method SanitizeForLogging(rules: Rules, data: Value) returns (r: Value)
    ensures r == Sanitized(rules, data, MAX_DEPTH) && Safe(rules, r, MAX_DEPTH)
  {
    r := SanitizeValue(rules, data, MAX_DEPTH);
    SanitizedIsSafe(rules, data, MAX_DEPTH);
  }

  // ----- What a log line depends on -----

  /** A place inside a value: the position taken in each container on the way. */
  type Path = seq<nat>

  function Size(v: Value): nat {
    match v
    case Dict(fields) => |fields|
    case List(items) => |items|
    case _ => 0
  }

  function Child(v: Value, i: nat): (c: Value)
    requires i < Size(v)
    ensures c < v
  {
    if v.Dict? then v.fields[i].1 else v.items[i]
  }

  predicate IsPlace(v: Value, path: Path)
    decreases |path|
  {
    path != [] ==> path[0] < Size(v) && IsPlace(Child(v, path[0]), path[1..])
  }

  function At(v: Value, path: Path): Value
    requires IsPlace(v, path)
    decreases |path|
  {
    if path == [] then v else At(Child(v, path[0]), path[1..])
  }

  function WithChild(v: Value, i: nat, c: Value): Value
    requires i < Size(v)
  {
    if v.Dict? then Dict(v.fields[i := (v.fields[i].0, c)]) else List(v.items[i := c])
  }

  /** The value with another one at a place. */
  function Replace(v: Value, path: Path, w: Value): Value
    requires IsPlace(v, path)
    decreases |path|
  {
    if path == [] then w else
      WithChild(v, path[0], Replace(Child(v, path[0]), path[1..], w))
  }

  /** One step goes neither under a sensitive key nor past the items a list is cut to. */
  predicate OpenStep(rules: Rules, v: Value, i: nat)
    requires i < Size(v)
  {
    if v.Dict? then !rules.sensitive(v.fields[i].0) else i < MAX_ITEMS
  }

  predicate Open(rules: Rules, v: Value, path: Path)
    requires IsPlace(v, path)
    decreases |path|
  {
    path != [] ==> OpenStep(rules, v, path[0]) && Open(rules, Child(v, path[0]), path[1..])
  }

  /** Where the path is open and no longer than the depth, the log shows the sanitised value in its place. */
  lemma {:induction false} OpenPlacesAreShown(rules: Rules, v: Value, path: Path, depth: nat)
    requires IsPlace(v, path) && Open(rules, v, path) && |path| <= depth
    ensures IsPlace(Sanitized(rules, v, depth), path)
    ensures At(Sanitized(rules, v, depth), path) == Sanitized(rules, At(v, path), depth - |path|)
    decreases |path|
  {
    if path != [] {
      OpenPlacesAreShown(rules, Child(v, path[0]), path[1..], depth - 1);
      assert Child(Sanitized(rules, v, depth), path[0]) == Sanitized(rules, Child(v, path[0]), depth - 1);
    }
  }

  /** What stands for a container with room left below it: the same keys, secrets redacted; the first items. */
  ghost predicate ShownInside(rules: Rules, was: Value, shown: Value) {
    match was
    case Dict(fields) =>
      && shown.Dict? && |shown.fields| == |fields|
      && forall i :: 0 <= i < |fields| ==>
           && shown.fields[i].0 == fields[i].0
           && (rules.sensitive(fields[i].0) ==> shown.fields[i].1 == Text("[REDACTED]"))
    case List(items) => shown.List? && |shown.items| == if |items| < 10 then |items| else 10
    case Scalar(_) => shown == was
    case Text(s) => shown == Text(rules.clean(s))
    case Null => shown == Null
  }

  /** What stands for a value where the depth is used up: a marker for a container, a leaf as ever. */
  ghost predicate ShownAtDepth(rules: Rules, was: Value, shown: Value) {
    match was
    case Dict(_) => shown == Dict([("<max_depth_reached>", Text("..."))])
    case List(_) => shown == List([Text("<max_depth_reached>")])
    case Scalar(_) => shown == was
    case Text(s) => shown == Text(rules.clean(s))
    case Null => shown == Null
  }

  /**
   What the log shows at every place it reaches: numbers as they are, text cleaned,
   dictionaries with their keys, lists cut, and a marker where the depth is used up.
   */
  lemma PlacesAreShownAs(rules: Rules, v: Value, path: Path, depth: nat)
    requires IsPlace(v, path) && Open(rules, v, path) && |path| <= depth
    ensures IsPlace(Sanitized(rules, v, depth), path)
    ensures var (was, shown) := (At(v, path), At(Sanitized(rules, v, depth), path));
            if |path| < depth then ShownInside(rules, was, shown) else ShownAtDepth(rules, was, shown)
  {
    OpenPlacesAreShown(rules, v, path, depth);
  }

  /** Everywhere else the log does not depend on the value at all. */
  lemma {:induction false} OtherPlacesDoNotInterfere(rules: Rules, v: Value, path: Path, depth: nat, w: Value)
    requires IsPlace(v, path) && !(Open(rules, v, path) && |path| <= depth)
    ensures Sanitized(rules, Replace(v, path, w), depth) == Sanitized(rules, v, depth)
    decreases |path|
  {
    if depth > 0 {
      var i := path[0];
      if OpenStep(rules, v, i) {
        OtherPlacesDoNotInterfere(rules, Child(v, i), path[1..], depth - 1, w);
      }
      ChildDecides(rules, v, i, Replace(Child(v, i), path[1..], w), depth);
    }
  }

  lemma ChildDecides(rules: Rules, v: Value, i: nat, c: Value, depth: nat)
    requires depth > 0 && i < Size(v)
    requires OpenStep(rules, v, i) ==> Sanitized(rules, c, depth - 1) == Sanitized(rules, Child(v, i), depth - 1)
    ensures Sanitized(rules, WithChild(v, i, c), depth) == Sanitized(rules, v, depth)
  {
    var u := WithChild(v, i, c);
    if v.Dict? {
      forall k | 0 <= k < |v.fields|
        ensures Sanitized(rules, u, depth).fields[k] == Sanitized(rules, v, depth).fields[k]
      {
        assert u.fields[k] == v.fields[k] || k == i;
      }
      assert Sanitized(rules, u, depth).fields == Sanitized(rules, v, depth).fields;
    } else {
      assert Sanitized(rules, u, depth).items == Sanitized(rules, v, depth).items;
    }
  }
}
