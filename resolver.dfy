/**
 * The namespace resolver: `resolveNamespace` walks a document from its root,
 * one segment at a time, and returns the value the whole namespace addresses.
 */
module Resolver {
  import opened Wrappers
  import opened Errors
  import opened Json
  import opened Pointer

  /** The value reached from `v` by using each key of `path` in turn, if every key is there. */
  ghost function Walk(v: Json, path: seq<string>): Option<Json>
    decreases |path|
  {
    if path == [] then Some(v)
    else
      match Member(v, path[0])
      case None => None
      case Some(child) => Walk(child, path[1..])
  }

  /** The error for segment `i` when it cannot be applied to `base`. */
  function StepError(namespace: seq<string>, i: nat, base: Json): Error
    requires i < |namespace|
  {
    if IsContainer(base) then BadResolveProp(namespace, namespace[i])
    else BadResolveBase(namespace, namespace[i])
  }

  /** What the resolver does from segment `i` on, when the value reached so far is `v`. */
  function ResolveFrom(namespace: seq<string>, i: nat, v: Json): Outcome<Json>
    requires i <= |namespace|
    decreases |namespace| - i
  {
    if i == |namespace| then
      if v.JNull? then Err(BadResolveLeaf(namespace)) else Ok(v)
    else if !IsContainer(v) then Err(BadResolveBase(namespace, namespace[i]))
    else
      match Member(v, namespace[i])
      case None => Err(BadResolveProp(namespace, namespace[i]))
      case Some(child) => ResolveFrom(namespace, i + 1, child)
  }

  /** A segment found in the value reached so far moves the walk on to its child. */
  lemma ResolveFromStep(namespace: seq<string>, i: nat, v: Json, child: Json)
    requires i < |namespace| && Member(v, namespace[i]) == Some(child)
    ensures ResolveFrom(namespace, i, v) == ResolveFrom(namespace, i + 1, child)
  {
  }

  function Resolve(root: Json, namespace: seq<string>): Outcome<Json> {
    ResolveFrom(namespace, 0, root)
  }

  method ResolveNamespace(root: Json, namespace: seq<string>) returns (r: Outcome<Json>)
    ensures r == Resolve(root, namespace)
  {
    var resolved := root;
    for i := 0 to |namespace|
      invariant ResolveFrom(namespace, i, resolved) == Resolve(root, namespace)
    {
      var name := namespace[i];
      if !IsContainer(resolved) {
        return Err(BadResolveBase(namespace, name));
      }
      var next := Member(resolved, name);
      if next.None? {
        return Err(BadResolveProp(namespace, name));
      }
      resolved := next.value;
    }
    if resolved.JNull? {
      return Err(BadResolveLeaf(namespace));
    }
    return Ok(resolved);
  }

  /** `resolveNamespace(root, relativeReferenceToNamespace(ref))`, the step both callers take. */
  function ResolveReference(root: Json, ref: string): Outcome<Json> {
    var namespace :- RelativeReferenceToNamespace(ref);
    Resolve(root, namespace)
  }

  /** Resolving the reference of a namespace is resolving that namespace. */
  lemma ResolveReferenceOf(root: Json, namespace: seq<string>)
    requires IsNamespace(namespace)
    ensures ResolveReference(root, Reference(namespace)) == Resolve(root, namespace)
  {
    ParseReference(Reference(namespace), namespace);
  }

  /** A successful resolution from segment `i` on is the walk over the remaining segments. */
  lemma {:induction false} ResolveFromOk(namespace: seq<string>, i: nat, v: Json)
    requires i <= |namespace| && ResolveFrom(namespace, i, v).Ok?
    ensures Walk(v, namespace[i..]) == Some(ResolveFrom(namespace, i, v).value)
    ensures !ResolveFrom(namespace, i, v).value.JNull?
    decreases |namespace| - i
  {
    if i < |namespace| {
      var child := Member(v, namespace[i]).value;
      ResolveFromOk(namespace, i + 1, child);
      assert namespace[i..][1..] == namespace[i + 1..];
    }
  }

  /** When the remaining segments can all be walked, the resolver returns where they lead. */
  lemma {:induction false} ResolveFromWalked(namespace: seq<string>, i: nat, v: Json, w: Json)
    requires i <= |namespace| && Walk(v, namespace[i..]) == Some(w)
    ensures ResolveFrom(namespace, i, v) == if w.JNull? then Err(BadResolveLeaf(namespace)) else Ok(w)
    decreases |namespace| - i
  {
    if i < |namespace| {
      assert namespace[i..][1..] == namespace[i + 1..];
      var child := Member(v, namespace[i]).value;
      ResolveFromWalked(namespace, i + 1, child, w);
    }
  }

  /** When segment `k` cannot be applied to the value walked to so far, it decides the error. */
  lemma {:induction false} ResolveFromStuck(namespace: seq<string>, i: nat, v: Json, k: nat, base: Json)
    requires i <= k < |namespace|
    requires Walk(v, namespace[i..k]) == Some(base) && Member(base, namespace[k]).None?
    ensures ResolveFrom(namespace, i, v) == Err(StepError(namespace, k, base))
    decreases k - i
  {
    if i < k {
      assert namespace[i..k][1..] == namespace[i + 1..k];
      var child := Member(v, namespace[i]).value;
      ResolveFromStuck(namespace, i + 1, child, k, base);
    }
  }

  /** A walk that fails has a first key that cannot be applied. */
  lemma {:induction false} WalkStuck(v: Json, path: seq<string>)
    requires Walk(v, path).None?
    ensures exists k, base ::
      (0 <= k < |path| && Walk(v, path[..k]) == Some(base) && Member(base, path[k]).None?)
    decreases |path|
  {
    assert path[..0] == [];
    match Member(v, path[0])
    case None =>
      assert Walk(v, path[..0]) == Some(v);
    case Some(child) =>
      WalkStuck(child, path[1..]);
      var k, base :| 0 <= k < |path[1..]| && Walk(child, path[1..][..k]) == Some(base) &&
        Member(base, path[1..][k]).None?;
      assert path[..k + 1][1..] == path[1..][..k];
      assert Walk(v, path[..k + 1]) == Some(base);
  }

  /** Success means: every segment was found in turn, and the value reached is not null. */
  lemma ResolveSucceeds(root: Json, namespace: seq<string>, v: Json)
    ensures Resolve(root, namespace) == Ok(v) <==> Walk(root, namespace) == Some(v) && !v.JNull?
  {
    assert namespace[0..] == namespace;
    if Resolve(root, namespace) == Ok(v) {
      ResolveFromOk(namespace, 0, root);
    }
    if Walk(root, namespace) == Some(v) {
      ResolveFromWalked(namespace, 0, root, v);
    }
  }

  /** A walk that ends on null is rejected as an empty leaf. */
  lemma ResolveRejectsNullLeaf(root: Json, namespace: seq<string>)
    requires Walk(root, namespace) == Some(JNull)
    ensures Resolve(root, namespace) == Err(BadResolveLeaf(namespace))
  {
    assert namespace[0..] == namespace;
    ResolveFromWalked(namespace, 0, root, JNull);
  }

  /**
   * The first segment that cannot be applied decides the error: a base error when
   * the value reached is a scalar or null, a property error when the key is absent.
   */
  lemma ResolveFirstFailure(root: Json, namespace: seq<string>, k: nat, base: Json)
    requires k < |namespace|
    requires Walk(root, namespace[..k]) == Some(base) && Member(base, namespace[k]).None?
    ensures Resolve(root, namespace) == Err(StepError(namespace, k, base))
    ensures !IsContainer(base) ==> Resolve(root, namespace) == Err(BadResolveBase(namespace, namespace[k]))
    ensures IsContainer(base) ==> Resolve(root, namespace) == Err(BadResolveProp(namespace, namespace[k]))
  {
    assert namespace[0..k] == namespace[..k];
    ResolveFromStuck(namespace, 0, root, k, base);
  }

  /** Every error is one of those: a null leaf, or the first segment that cannot be applied. */
  lemma ResolveErrorExplained(root: Json, namespace: seq<string>)
    requires Resolve(root, namespace).Err?
    ensures
      || (Walk(root, namespace) == Some(JNull) &&
          Resolve(root, namespace).error == BadResolveLeaf(namespace))
      || exists k, base ::
           (0 <= k < |namespace| && Walk(root, namespace[..k]) == Some(base) &&
            Member(base, namespace[k]).None? &&
            Resolve(root, namespace).error == StepError(namespace, k, base))
  {
    assert namespace[0..] == namespace;
    match Walk(root, namespace)
    case Some(w) =>
      ResolveFromWalked(namespace, 0, root, w);
    case None =>
      WalkStuck(root, namespace);
      var k, base :| 0 <= k < |namespace| && Walk(root, namespace[..k]) == Some(base) &&
        Member(base, namespace[k]).None?;
      ResolveFirstFailure(root, namespace, k, base);
  }

  /** A small example document, `{"a": {"b": 42}}`. */
  function SmallDocument(leaf: Json): Json {
    JObj([("a", JObj([("b", leaf)]))])
  }

  lemma ResolveExamples()
    ensures Resolve(SmallDocument(JNum(42)), ["a", "b"]) == Ok(JNum(42))
    ensures Resolve(SmallDocument(JNum(42)), ["a", "c"]) == Err(BadResolveProp(["a", "c"], "c"))
    ensures Resolve(SmallDocument(JNull), ["a", "b"]) == Err(BadResolveLeaf(["a", "b"]))
    ensures Resolve(SmallDocument(JNum(42)), ["a", "b", "c"]) ==
      Err(BadResolveBase(["a", "b", "c"], "c"))
  {
  }
}
