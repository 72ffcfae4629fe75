/** Recursive redaction of learning events, and which events it refuses. */
module LearningEvent {
  import opened Text

  const MAX_DEPTH := 12
  const REDACTED := Text("[REDACTED_SECRET]")

  /** A value as parsed; an object keeps its entries in order. */
  datatype Value =
    | Text(text: string)
    | Number(value: real)
    | NonFinite
    | Other(tag: nat)
    | List(items: seq<Value>)
    | Object(entries: seq<Entry>)

  datatype Entry = Entry(key: string, item: Value)

  datatype Failure = TooDeep | NotFinite

  datatype Cleaned<+T> = Clean(value: T) | Refused(why: Failure)

  /** `sanitize` is the text sanitiser, `secret` the test for secret-named keys. */
  datatype Policy = Policy(sanitize: string -> string, secret: string -> bool)

  function CleanValue(v: Value, depth: nat, p: Policy): Cleaned<Value>
    decreases v, 0
  {
    if depth > MAX_DEPTH then Refused(TooDeep)
    else
      match v
      case Text(s) => Clean(Text(p.sanitize(s)))
      case NonFinite => Refused(NotFinite)
      case List(items) =>
        var r := CleanItems(items, depth + 1, p);
        if r.Refused? then Refused(r.why) else Clean(List(r.value))
      case Object(entries) =>
        var r := CleanEntries(entries, depth + 1, p);
        if r.Refused? then Refused(r.why) else Clean(Object(r.value))
      case _ => Clean(v)
  }

  function CleanItems(items: seq<Value>, depth: nat, p: Policy): Cleaned<seq<Value>>
    decreases items, 1
  {
    if items == [] then Clean([])
    else
      var first := CleanValue(items[0], depth, p);
      if first.Refused? then Refused(first.why)
      else
        var rest := CleanItems(items[1..], depth, p);
        if rest.Refused? then rest else Clean([first.value] + rest.value)
  }

  function CleanEntries(entries: seq<Entry>, depth: nat, p: Policy): Cleaned<seq<Entry>>
    decreases entries, 1
  {
    if entries == [] then Clean([])
    else
      var Entry(key, item) := entries[0];
      var first := if p.secret(key) then Clean(REDACTED) else CleanValue(item, depth, p);
      if first.Refused? then Refused(first.why)
      else
        var rest := CleanEntries(entries[1..], depth, p);
        if rest.Refused? then rest else Clean([Entry(key, first.value)] + rest.value)
  }

  function SanitizeLearningEvent(v: Value, p: Policy): Cleaned<Value> {
    CleanValue(v, 0, p)
  }

  // ----- where a value is exposed -----

  /** The value reached by following child positions, unless a secret-named key is on the way. */
  function At(v: Value, path: seq<nat>, p: Policy): Option<Value>
    decreases |path|
  {
    if path == [] then Some(v)
    else if v.List? && path[0] < |v.items| then At(v.items[path[0]], path[1..], p)
    else if v.Object? && path[0] < |v.entries| && !p.secret(v.entries[path[0]].key) then
      At(v.entries[path[0]].item, path[1..], p)
    else None
  }

  /** A value that, met at that depth outside secret-named keys, is refused. */
  predicate Offends(v: Value, depth: nat) {
    depth > 12 || v.NonFinite?
  }

  ghost predicate Exposes(v: Value, depth: nat, p: Policy) {
    exists path :: At(v, path, p).Some? && Offends(At(v, path, p).value, depth + |path|)
  }

  lemma ExposesHere(v: Value, depth: nat, p: Policy)
    requires Offends(v, depth)
    ensures Exposes(v, depth, p)
  {
    assert At(v, [], p) == Some(v);
  }

  /** Offence in a child is offence in the parent. */
  lemma ExposesChild(v: Value, depth: nat, p: Policy, i: nat, child: Value)
    requires At(v, [i], p) == Some(child) && Exposes(child, depth + 1, p)
    ensures Exposes(v, depth, p)
  {
    var path :| At(child, path, p).Some? && Offends(At(child, path, p).value, depth + 1 + |path|);
    assert [i][1..] == [] && At(child, [], p) == Some(child);
    assert ([i] + path)[1..] == path;
    assert At(v, [i] + path, p) == At(child, path, p);
  }

  /** An offence is here or in a child. */
  lemma ExposesSomewhere(v: Value, depth: nat, p: Policy)
    requires Exposes(v, depth, p) && !Offends(v, depth)
    ensures exists i :: At(v, [i], p).Some? && Exposes(At(v, [i], p).value, depth + 1, p)
  {
    var path :| At(v, path, p).Some? && Offends(At(v, path, p).value, depth + |path|);
    assert path != [];
    var i, rest := path[0], path[1..];
    assert [i][1..] == [] && [i][0] == i;
    assert At(v, [i], p).Some? && At(v, path, p) == At(At(v, [i], p).value, rest, p);
    var child := At(v, [i], p).value;
    assert At(child, rest, p) == At(v, path, p);
  }

  /** Cleaning is refused exactly when something offends outside secret-named keys. */
  lemma {:induction false} RefusedIffExposed(v: Value, depth: nat, p: Policy)
    ensures CleanValue(v, depth, p).Refused? <==> Exposes(v, depth, p)
    decreases v, 0
  {
    if Offends(v, depth) {
      ExposesHere(v, depth, p);
    } else {
      if v.List? {
        ItemsRefusedIff(v.items, depth + 1, p);
      } else if v.Object? {
        EntriesRefusedIff(v.entries, depth + 1, p);
      }
      ChildrenDecide(v, depth, p);
    }
  }

  lemma {:induction false} ItemsRefusedIff(items: seq<Value>, depth: nat, p: Policy)
    ensures CleanItems(items, depth, p).Refused? <==> exists i :: 0 <= i < |items| && Exposes(items[i], depth, p)
    decreases items, 1
  {
    if items != [] {
      RefusedIffExposed(items[0], depth, p);
      ItemsRefusedIff(items[1..], depth, p);
      assert forall i :: 0 < i < |items| ==> items[i] == items[1..][i - 1];
    }
  }

  lemma {:induction false} EntriesRefusedIff(entries: seq<Entry>, depth: nat, p: Policy)
    ensures CleanEntries(entries, depth, p).Refused? <==>
            exists i :: 0 <= i < |entries| && !p.secret(entries[i].key) && Exposes(entries[i].item, depth, p)
    decreases entries, 1
  {
    if entries != [] {
      RefusedIffExposed(entries[0].item, depth, p);
      EntriesRefusedIff(entries[1..], depth, p);
      assert forall i :: 0 < i < |entries| ==> entries[i] == entries[1..][i - 1];
    }
  }

  /** A value that does not offend itself exposes exactly what its children expose. */
  lemma ChildrenDecide(v: Value, depth: nat, p: Policy)
    requires !Offends(v, depth)
    ensures Exposes(v, depth, p) <==>
            || (v.List? && exists i :: 0 <= i < |v.items| && Exposes(v.items[i], depth + 1, p))
            || (v.Object? &&
                exists i :: 0 <= i < |v.entries| && !p.secret(v.entries[i].key)
                            && Exposes(v.entries[i].item, depth + 1, p))
  {
    forall i: nat ensures At(v, [i], p) ==
                          if v.List? && i < |v.items| then Some(v.items[i])
                          else if v.Object? && i < |v.entries| && !p.secret(v.entries[i].key)
                          then Some(v.entries[i].item)
                          else None
    {
      assert [i][1..] == [];
    }
    if Exposes(v, depth, p) {
      ExposesSomewhere(v, depth, p);
    }
    if v.List? {
      if i :| 0 <= i < |v.items| && Exposes(v.items[i], depth + 1, p) {
        ExposesChild(v, depth, p, i, v.items[i]);
      }
    }
    if v.Object? {
      if i :| 0 <= i < |v.entries| && !p.secret(v.entries[i].key) && Exposes(v.entries[i].item, depth + 1, p) {
        ExposesChild(v, depth, p, i, v.entries[i].item);
      }
    }
  }

  // ----- what cleaning keeps -----

  /** The same value, with texts sanitised and secret-named entries redacted. */
  ghost predicate IsCleaned(v: Value, r: Value, p: Policy)
    decreases v
  {
    match v
    case Text(s) => r == Text(p.sanitize(s))
    case List(items) =>
      && r.List? && |r.items| == |items|
      && forall i :: 0 <= i < |items| ==> IsCleaned(items[i], r.items[i], p)
    case Object(entries) =>
      && r.Object? && |r.entries| == |entries|
      && forall i :: 0 <= i < |entries| ==>
                       && r.entries[i].key == entries[i].key
                       && (if p.secret(entries[i].key) then r.entries[i].item == Text("[REDACTED_SECRET]")
                           else IsCleaned(entries[i].item, r.entries[i].item, p))
    case _ => r == v
  }

  lemma {:induction false} CleanIsCleaned(v: Value, depth: nat, p: Policy)
    requires CleanValue(v, depth, p).Clean?
    ensures IsCleaned(v, CleanValue(v, depth, p).value, p)
    decreases v, 0
  {
    match v
    case List(items) => ItemsCleaned(items, depth + 1, p);
    case Object(entries) => EntriesCleaned(entries, depth + 1, p);
    case _ =>
  }

  lemma {:induction false} ItemsCleaned(items: seq<Value>, depth: nat, p: Policy)
    requires CleanItems(items, depth, p).Clean?
    ensures var r := CleanItems(items, depth, p).value;
            |r| == |items| && forall i :: 0 <= i < |items| ==> IsCleaned(items[i], r[i], p)
    decreases items, 1
  {
    if items != [] {
      CleanIsCleaned(items[0], depth, p);
      ItemsCleaned(items[1..], depth, p);
    }
  }

  lemma {:induction false} EntriesCleaned(entries: seq<Entry>, depth: nat, p: Policy)
    requires CleanEntries(entries, depth, p).Clean?
    ensures var r := CleanEntries(entries, depth, p).value;
            && |r| == |entries|
            && forall i :: 0 <= i < |entries| ==>
                             && r[i].key == entries[i].key
                             && (if p.secret(entries[i].key) then r[i].item == REDACTED
                                 else IsCleaned(entries[i].item, r[i].item, p))
    decreases entries, 1
  {
    if entries != [] {
      if !p.secret(entries[0].key) {
        CleanIsCleaned(entries[0].item, depth, p);
      }
      EntriesCleaned(entries[1..], depth, p);
    }
  }

  /** A cleaned event is refused nowhere, and keeps lengths and keys; secrets are gone. */
  lemma SanitizingIsFaithful(v: Value, p: Policy)
    ensures var r := SanitizeLearningEvent(v, p);
            if Exposes(v, 0, p) then r.Refused? else r.Clean? && IsCleaned(v, r.value, p)
  {
    RefusedIffExposed(v, 0, p);
    if !Exposes(v, 0, p) {
      CleanIsCleaned(v, 0, p);
    }
  }

  // ----- idempotence -----

  ghost predicate Idempotent(f: string -> string) {
    forall s :: f(f(s)) == f(s)
  }

  lemma {:induction false} CleanTwice(v: Value, depth: nat, p: Policy)
    requires Idempotent(p.sanitize) && CleanValue(v, depth, p).Clean?
    ensures CleanValue(CleanValue(v, depth, p).value, depth, p) == CleanValue(v, depth, p)
    decreases v, 0
  {
    match v
    case List(items) => ItemsTwice(items, depth + 1, p);
    case Object(entries) => EntriesTwice(entries, depth + 1, p);
    case _ =>
  }

  lemma {:induction false} ItemsTwice(items: seq<Value>, depth: nat, p: Policy)
    requires Idempotent(p.sanitize) && CleanItems(items, depth, p).Clean?
    ensures CleanItems(CleanItems(items, depth, p).value, depth, p) == CleanItems(items, depth, p)
    decreases items, 1
  {
    if items != [] {
      CleanTwice(items[0], depth, p);
      ItemsTwice(items[1..], depth, p);
      var first, rest := CleanValue(items[0], depth, p).value, CleanItems(items[1..], depth, p).value;
      assert ([first] + rest)[1..] == rest;
    }
  }

  lemma {:induction false} EntriesTwice(entries: seq<Entry>, depth: nat, p: Policy)
    requires Idempotent(p.sanitize) && CleanEntries(entries, depth, p).Clean?
    ensures CleanEntries(CleanEntries(entries, depth, p).value, depth, p) == CleanEntries(entries, depth, p)
    decreases entries, 1
  {
    if entries != [] {
      var key := entries[0].key;
      if !p.secret(key) {
        CleanTwice(entries[0].item, depth, p);
      }
      EntriesTwice(entries[1..], depth, p);
      var first := if p.secret(key) then REDACTED else CleanValue(entries[0].item, depth, p).value;
      var rest := CleanEntries(entries[1..], depth, p).value;
      assert ([Entry(key, first)] + rest)[1..] == rest;
    }
  }

  /** Sanitising a sanitised event, which is an object, never changes it exactly when the text sanitiser
      is idempotent or every key counts as secret. */
  lemma SanitizingIsIdempotentIff(p: Policy)
    ensures (forall v: Value :: v.Object? && SanitizeLearningEvent(v, p).Clean? ==>
                           SanitizeLearningEvent(SanitizeLearningEvent(v, p).value, p) == SanitizeLearningEvent(v, p))
            <==> Idempotent(p.sanitize) || forall key :: p.secret(key)
  {
    if Idempotent(p.sanitize) {
      forall v | SanitizeLearningEvent(v, p).Clean?
        ensures SanitizeLearningEvent(SanitizeLearningEvent(v, p).value, p) == SanitizeLearningEvent(v, p)
      {
        CleanTwice(v, 0, p);
      }
    } else if forall key :: p.secret(key) {
      forall v: Value | v.Object? && SanitizeLearningEvent(v, p).Clean?
        ensures SanitizeLearningEvent(SanitizeLearningEvent(v, p).value, p) == SanitizeLearningEvent(v, p)
      {
        AllSecretTwice(v.entries, 1, p);
      }
    } else {
      var s :| p.sanitize(p.sanitize(s)) != p.sanitize(s);
      var key :| !p.secret(key);
      OneEntry(key, s, p);
      OneEntry(key, p.sanitize(s), p);
    }
  }

  lemma OneEntry(key: string, s: string, p: Policy)
    requires !p.secret(key)
    ensures SanitizeLearningEvent(Object([Entry(key, Text(s))]), p) == Clean(Object([Entry(key, Text(p.sanitize(s)))]))
  {
    var entries, cleaned := [Entry(key, Text(s))], [Entry(key, Text(p.sanitize(s)))];
    assert entries[1..] == [] && CleanEntries([], 1, p) == Clean([]);
    assert CleanValue(Text(s), 1, p) == Clean(Text(p.sanitize(s)));
    assert cleaned + [] == cleaned;
    assert CleanEntries(entries, 1, p) == Clean(cleaned);
  }

  lemma {:induction false} AllSecretTwice(entries: seq<Entry>, depth: nat, p: Policy)
    requires forall key :: p.secret(key)
    ensures CleanEntries(entries, depth, p).Clean?
    ensures CleanEntries(CleanEntries(entries, depth, p).value, depth, p) == CleanEntries(entries, depth, p)
  {
    if entries != [] {
      AllSecretTwice(entries[1..], depth, p);
      var rest := CleanEntries(entries[1..], depth, p).value;
      var cleaned := [Entry(entries[0].key, REDACTED)] + rest;
      assert CleanEntries(entries, depth, p) == Clean(cleaned);
      assert cleaned[1..] == rest;
    }
  }

  /** For values of any kind the text sanitiser must be idempotent. */
  lemma CleaningIsIdempotentIff(p: Policy)
    ensures (forall v :: SanitizeLearningEvent(v, p).Clean? ==>
                           SanitizeLearningEvent(SanitizeLearningEvent(v, p).value, p) == SanitizeLearningEvent(v, p))
            <==> Idempotent(p.sanitize)
  {
    if Idempotent(p.sanitize) {
      forall v | SanitizeLearningEvent(v, p).Clean?
        ensures SanitizeLearningEvent(SanitizeLearningEvent(v, p).value, p) == SanitizeLearningEvent(v, p)
      {
        CleanTwice(v, 0, p);
      }
    } else {
      var s :| p.sanitize(p.sanitize(s)) != p.sanitize(s);
      assert SanitizeLearningEvent(Text(s), p) == Clean(Text(p.sanitize(s)));
    }
  }
}
