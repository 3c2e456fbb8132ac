/**
 * The reference dereferencer: `ensureResolvedObject` follows a chain of
 * pointer objects (`{"$ref": ...}` whose target is again a pointer object)
 * until it reaches a value that carries no `$ref`.
 */
module Dereference {
  import opened Wrappers
  import opened Errors
  import opened Json
  import opened Pointer
  import opened Resolver

  /**
   * The outcome of chasing `v` for at most `fuel` steps, following each string
   * `$ref` with `step`.  `None` means the chase has not ended within `fuel`
   * steps, or it meets a `$ref` that is not a string, on which the source
   * throws a TypeError outside the error taxonomy.
   */
  ghost function ChaseWith(step: string -> Outcome<Json>, v: Json, fuel: nat): Option<Outcome<Json>>
    decreases fuel
  {
    if !IsReference(v) then Some(Ok(v))
    else if fuel == 0 then None
    else
      match StringRef(v)
      case None => None
      case Some(ref) =>
        match step(ref)
        case Err(e) => Some(Err(e))
        case Ok(target) => ChaseWith(step, target, fuel - 1)
  }

  /** One link of an alias chain in `root`. */
  ghost function Link(root: Json): string -> Outcome<Json> {
    ref => ResolveReference(root, ref)
  }

  /** The chase through `root`. */
  ghost function Chase(root: Json, v: Json, fuel: nat): Option<Outcome<Json>> {
    ChaseWith(Link(root), v, fuel)
  }

  /**
   * `fuel` is a proof that the chase ends: a bound on the length of the alias
   * chain.  The loop itself has no bound, exactly as in the source.
   */
  method EnsureResolvedObject(root: Json, obj: Json, ghost fuel: nat) returns (r: Outcome<Json>)
    requires Chase(root, obj, fuel).Some?
    ensures r == Chase(root, obj, fuel).value
    ensures r.Ok? ==> !IsReference(r.value)
    ensures !IsReference(obj) ==> r == Ok(obj)
  {
    var resolvedObject := obj;
    ghost var steps := fuel;
    while IsReference(resolvedObject)
      invariant Chase(root, resolvedObject, steps) == Chase(root, obj, fuel)
      decreases steps
    {
      var ref := StringRef(resolvedObject).value;
      var namespace := RelativeReferenceToNamespace(ref);
      if namespace.Err? {
        return Err(namespace.error);
      }
      var target := ResolveNamespace(root, namespace.value);
      if target.Err? {
        return Err(target.error);
      }
      resolvedObject := target.value;
      steps := steps - 1;
    }
    return Ok(resolvedObject);
  }

  /** The fuel is only a bound: once the chase ends, more fuel changes nothing. */
  lemma {:induction false} ChaseWithFuelIrrelevant(step: string -> Outcome<Json>, v: Json, fuel: nat, more: nat)
    requires ChaseWith(step, v, fuel).Some? && fuel <= more
    ensures ChaseWith(step, v, more) == ChaseWith(step, v, fuel)
    decreases fuel
  {
    if IsReference(v) {
      match step(StringRef(v).value)
      case Err(e) =>
      case Ok(target) =>
        ChaseWithFuelIrrelevant(step, target, fuel - 1, more - 1);
    }
  }

  lemma ChaseFuelIrrelevant(root: Json, v: Json, fuel: nat, more: nat)
    requires Chase(root, v, fuel).Some? && fuel <= more
    ensures Chase(root, v, more) == Chase(root, v, fuel)
  {
    ChaseWithFuelIrrelevant(Link(root), v, fuel, more);
  }

  /** Whenever the chase returns a value, that value carries no `$ref`. */
  lemma {:induction false} ChaseWithEndsOnNonReference(step: string -> Outcome<Json>, v: Json, fuel: nat)
    requires ChaseWith(step, v, fuel).Some? && ChaseWith(step, v, fuel).value.Ok?
    ensures !IsReference(ChaseWith(step, v, fuel).value.value)
    decreases fuel
  {
    if IsReference(v) {
      match step(StringRef(v).value)
      case Err(e) =>
      case Ok(target) =>
        ChaseWithEndsOnNonReference(step, target, fuel - 1);
    }
  }

  lemma ChaseEndsOnNonReference(root: Json, v: Json, fuel: nat)
    requires Chase(root, v, fuel).Some? && Chase(root, v, fuel).value.Ok?
    ensures !IsReference(Chase(root, v, fuel).value.value)
  {
    ChaseWithEndsOnNonReference(Link(root), v, fuel);
  }

  /**
   * Every error of the chase is the parser's or the resolver's error for some
   * reference met along the alias chain, unchanged.
   */
  lemma {:induction false} ChaseErrorFromStep(root: Json, v: Json, fuel: nat)
    requires Chase(root, v, fuel).Some? && Chase(root, v, fuel).value.Err?
    ensures exists ref, depth: nat ::
      (depth < fuel && OnChain(root, v, ref, depth) &&
       ResolveReference(root, ref) == Err(Chase(root, v, fuel).value.error))
    decreases fuel
  {
    var ref := StringRef(v).value;
    match ResolveReference(root, ref)
    case Err(e) =>
      assert OnChain(root, v, ref, 0);
    case Ok(target) =>
      ChaseErrorFromStep(root, target, fuel - 1);
      var r, depth: nat :| depth < fuel - 1 && OnChain(root, target, r, depth) &&
        ResolveReference(root, r) == Err(Chase(root, target, fuel - 1).value.error);
      assert OnChain(root, v, r, depth + 1);
  }

  /** `ref` is the string `$ref` met after following `depth` links from `v`. */
  ghost predicate OnChain(root: Json, v: Json, ref: string, depth: nat)
    decreases depth
  {
    match StringRef(v)
    case None => false
    case Some(here) =>
      if depth == 0 then ref == here
      else
        match ResolveReference(root, here)
        case Err(_) => false
        case Ok(target) => OnChain(root, target, ref, depth - 1)
  }

  /**
   * A small alias chain, `{"$defs": {"x": {"$ref": refY}, "y": true}}`,
   * where `refY` will be `#/$defs/y`.
   */
  function AliasDocument(refY: string): Json {
    JObj([("$defs", JObj([("x", JObj([("$ref", JStr(refY))])), ("y", JBool(true))]))])
  }

  /** In the alias document `$defs/x` holds the pointer to `refY` and `$defs/y` holds `true`. */
  lemma AliasTargets(refY: string, x: seq<string>, y: seq<string>)
    requires x == ["$defs", "x"] && y == ["$defs", "y"]
    ensures ResolveFrom(x, 0, AliasDocument(refY)) == Ok(JObj([("$ref", JStr(refY))]))
    ensures ResolveFrom(y, 0, AliasDocument(refY)) == Ok(JBool(true))
  {
    var root := AliasDocument(refY);
    var alias := JObj([("$ref", JStr(refY))]);
    var defs := JObj([("x", alias), ("y", JBool(true))]);
    assert Member(root, "$defs") == Some(defs);
    assert defs.fields[1..] == [("y", JBool(true))];
    assert "x"[0] != "y"[0];
    assert Lookup(defs.fields[1..], "y") == Some(JBool(true));
    assert Member(defs, "y") == Some(JBool(true));
    assert Member(defs, "x") == Some(alias);
    assert ResolveFrom(y, 1, defs) == Ok(JBool(true));
    assert ResolveFrom(x, 1, defs) == Ok(alias);
  }

  /** Both namespaces of the alias example are well formed. */
  lemma AliasNamespaces(x: seq<string>, y: seq<string>)
    requires x == ["$defs", "x"] && y == ["$defs", "y"]
    ensures IsNamespace(x) && IsNamespace(y)
  {
    assert forall i :: 0 <= i < |x| ==> |x[i]| >= 1 && "/"[0] !in x[i] && |y[i]| >= 1 && "/"[0] !in y[i];
  }

  /** Chasing `{"$ref": "#/$defs/x"}` follows `x` to `y` and returns `true`. */
  lemma ChasesAliasChain(x: seq<string>, y: seq<string>)
    requires x == ["$defs", "x"] && y == ["$defs", "y"]
    ensures Chase(AliasDocument(Reference(y)), JObj([("$ref", JStr(Reference(x)))]), 2) ==
      Some(Ok(JBool(true)))
  {
    var root := AliasDocument(Reference(y));
    var alias := JObj([("$ref", JStr(Reference(y)))]);
    AliasTargets(Reference(y), x, y);
    AliasNamespaces(x, y);
    ResolveReferenceOf(root, x);
    ResolveReferenceOf(root, y);
    assert StringRef(alias) == Some(Reference(y));
    assert ChaseWith(Link(root), JBool(true), 0) == Some(Ok(JBool(true)));
    assert ChaseWith(Link(root), alias, 1) == Some(Ok(JBool(true)));
  }
}
