/**
 * The sweep, `cleanupOpenAPI`: it collects the references reachable from the
 * document's `paths` and `webhooks`, and rebuilds `components` keeping, in
 * each of the six prunable registries, only the entries whose address
 * `#/components/<kind>/<key>` was collected.  Every other registry and every
 * other top-level field is carried over as it is.
 */
module Cleanup {
  import opened Wrappers
  import opened Errors
  import opened Json
  import opened Pointer
  import opened Resolver
  import opened Collector
  import opened Reachability

  /** `COMPONENTS_TYPES`: the registries the sweep prunes. */
  const ComponentsTypes: seq<string> :=
    ["schemas", "responses", "parameters", "examples", "requestBodies", "headers"]

  // ---------------------------------------------------------------------------
  // Reading the document

  /** `api.<name> || {}`. */
  function GraphRoot(api: Json, name: string): Json
    requires api.JObj?
  {
    match Lookup(api.fields, name)
    case Some(v) => if Falsy(v) then JObj([]) else v
    case None => JObj([])
  }

  /** The members of `api.components || {}`. */
  function ComponentsOf(api: Json): seq<(string, Json)>
    requires api.JObj?
  {
    match GraphRoot(api, "components")
    case JObj(fields) => fields
    case _ => []
  }

  /** The members of `registry || {}`. */
  function RegistryFields(registry: Json): seq<(string, Json)> {
    match registry
    case JObj(fields) => fields
    case _ => []
  }

  /**
   * What the `OpenAPI` type of the argument guarantees: the document is an
   * object, `components` is absent, falsy or an object, and so is every
   * prunable registry in it.
   */
  predicate ApiShaped(api: Json) {
    && api.JObj?
    && GraphRoot(api, "components").JObj?
    && forall i | 0 <= i < |ComponentsOf(api)| ::
      ComponentsOf(api)[i].0 in ComponentsTypes ==>
        Falsy(ComponentsOf(api)[i].1) || ComponentsOf(api)[i].1.JObj?
  }

  /** The canonical address of a component. */
  function Address(kind: string, key: string): string {
    "#/components/" + kind + "/" + key
  }

  // ---------------------------------------------------------------------------
  // Building the result

  /** `{...object, [key]: value}`: the key keeps its place if it has one, else it comes last. */
  function Put(fields: seq<(string, Json)>, key: string, value: Json): (r: seq<(string, Json)>)
    ensures Lookup(r, key) == Some(value)
    ensures forall other :: other != key ==> Lookup(r, other) == Lookup(fields, other)
    ensures Keys(r) == if key in Keys(fields) then Keys(fields) else Keys(fields) + [key]
  {
    if key in Keys(fields) then Replace(fields, key, value)
    else
      LookupAppend(fields, (key, value));
      fields + [(key, value)]
  }

  function Replace(fields: seq<(string, Json)>, key: string, value: Json): (r: seq<(string, Json)>)
    ensures Keys(r) == Keys(fields)
    ensures key in Keys(fields) ==> Lookup(r, key) == Some(value)
    ensures forall other :: other != key ==> Lookup(r, other) == Lookup(fields, other)
  {
    if fields == [] then []
    else
      var first := if fields[0].0 == key then (key, value) else fields[0];
      [first] + Replace(fields[1..], key, value)
  }

  /**
   * `Object.keys(registry).filter(key => used.includes(address)).reduce(...)`:
   * the members whose address was collected, in their order.
   */
  function KeepUsed(kind: string, fields: seq<(string, Json)>, used: set<string>): (kept: seq<(string, Json)>)
    ensures forall member :: member in kept <==> member in fields && Address(kind, member.0) in used
    ensures IsSubsequence(kept, fields)
    decreases |fields|
  {
    if fields == [] then []
    else
      var init := fields[..|fields| - 1];
      var last := fields[|fields| - 1];
      assert fields == init + [last];
      var rest := KeepUsed(kind, init, used);
      if Address(kind, last.0) in used then
        var kept := rest + [last];
        assert kept[..|kept| - 1] == rest;
        kept
      else rest
  }

  /** What a registry of kind `kind` becomes. */
  function PruneRegistry(kind: string, registry: Json, used: set<string>): Json {
    if kind in ComponentsTypes then JObj(KeepUsed(kind, RegistryFields(registry), used)) else registry
  }

  /** The `reduce` over the kinds of `components`. */
  function CleanComponents(components: seq<(string, Json)>, used: set<string>): (cleaned: seq<(string, Json)>)
    ensures |cleaned| == |components|
    ensures forall i :: 0 <= i < |cleaned| ==>
      cleaned[i] == (components[i].0, PruneRegistry(components[i].0, components[i].1, used))
  {
    if components == [] then []
    else
      [(components[0].0, PruneRegistry(components[0].0, components[0].1, used))] +
        CleanComponents(components[1..], used)
  }

  /** The document with its components pruned against `used`. */
  function Swept(api: Json, used: set<string>): Json
    requires api.JObj?
  {
    JObj(Put(api.fields, "components", JObj(CleanComponents(ComponentsOf(api), used))))
  }

  /** The union of the references collected from `paths` and from `webhooks`. */
  function UsedReferences(api: Json): Outcome<set<string>>
    requires api.JObj?
  {
    var fromPaths :- Collect(api, GraphRoot(api, "paths"), []);
    var fromWebhooks :- Collect(api, GraphRoot(api, "webhooks"), []);
    Ok(Elems(fromPaths) + Elems(fromWebhooks))
  }

  /** `cleanupOpenAPI(api)`. */
  function CleanupOpenAPI(api: Json): (r: Outcome<Json>)
    requires ApiShaped(api)
    ensures r.Err? <==> UsedReferences(api).Err?
    ensures r.Err? ==> r.error == UsedReferences(api).error
    ensures r.Ok? ==> && r.value.JObj?
                      && Lookup(r.value.fields, "components").Some?
                      && Lookup(r.value.fields, "components").value.JObj?
                      && Keys(Lookup(r.value.fields, "components").value.fields) == Keys(ComponentsOf(api))
    ensures r.Ok? ==> forall key :: key != "components" ==> Lookup(r.value.fields, key) == Lookup(api.fields, key)
    ensures r.Ok? ==> (Keys(r.value.fields) ==
      if "components" in Keys(api.fields) then Keys(api.fields) else Keys(api.fields) + ["components"])
  {
    var used :- UsedReferences(api);
    Ok(Swept(api, used))
  }

  // ---------------------------------------------------------------------------
  // What is marked

  /** The used references are those reachable from `paths` or from `webhooks`. */
  lemma UsedReferencesReachable(api: Json, ref: string)
    requires api.JObj? && UsedReferences(api).Ok?
    ensures ref in UsedReferences(api).value <==>
      Reachable(api, GraphRoot(api, "paths"), ref) || Reachable(api, GraphRoot(api, "webhooks"), ref)
  {
    CollectListsReachable(api, GraphRoot(api, "paths"), ref);
    CollectListsReachable(api, GraphRoot(api, "webhooks"), ref);
  }

  /**
   * The sweep succeeds iff some closed set of references holding those met on
   * `paths` and on `webhooks` resolves entirely.
   */
  lemma CleanupSucceeds(api: Json)
    requires ApiShaped(api)
    ensures CleanupOpenAPI(api).Ok? <==>
      exists refs :: && Closed(api, refs)
                     && Surface(GraphRoot(api, "paths")) + Surface(GraphRoot(api, "webhooks")) <= refs
                     && AllResolve(api, refs)
  {
    var paths := GraphRoot(api, "paths");
    var webhooks := GraphRoot(api, "webhooks");
    CollectSucceeds(api, paths);
    CollectSucceeds(api, webhooks);
    if CleanupOpenAPI(api).Ok? {
      CollectFromEmpty(api, paths);
      CollectFromEmpty(api, webhooks);
      var refs := Elems(Collect(api, paths, []).value) + Elems(Collect(api, webhooks, []).value);
      assert Closed(api, refs) && Surface(paths) + Surface(webhooks) <= refs && AllResolve(api, refs);
    }
  }

  // ---------------------------------------------------------------------------
  // What is swept

  /** The components of the result, once the sweep has succeeded. */
  function CleanedComponents(api: Json): seq<(string, Json)>
    requires ApiShaped(api) && CleanupOpenAPI(api).Ok?
  {
    Lookup(CleanupOpenAPI(api).value.fields, "components").value.fields
  }

  /**
   * A prunable registry keeps, in its order, exactly the entries whose address
   * is reachable from `paths` or from `webhooks`; their values are unchanged.
   */
  lemma CleanupPrunesRegistry(api: Json, i: nat, member: (string, Json))
    requires ApiShaped(api) && CleanupOpenAPI(api).Ok?
    requires i < |ComponentsOf(api)| && ComponentsOf(api)[i].0 in ComponentsTypes
    ensures var kind := ComponentsOf(api)[i].0;
      var registry := RegistryFields(ComponentsOf(api)[i].1);
      var cleaned := CleanedComponents(api);
      && i < |cleaned| && cleaned[i].0 == kind && cleaned[i].1.JObj?
      && IsSubsequence(cleaned[i].1.fields, registry)
      && (member in cleaned[i].1.fields <==>
            && member in registry
            && (|| Reachable(api, GraphRoot(api, "paths"), Address(kind, member.0))
                || Reachable(api, GraphRoot(api, "webhooks"), Address(kind, member.0))))
  {
    UsedReferencesReachable(api, Address(ComponentsOf(api)[i].0, member.0));
  }

  /** Registries of the other kinds are carried over as they are. */
  lemma CleanupKeepsOtherKinds(api: Json, i: nat)
    requires ApiShaped(api) && CleanupOpenAPI(api).Ok?
    requires i < |ComponentsOf(api)| && ComponentsOf(api)[i].0 !in ComponentsTypes
    ensures i < |CleanedComponents(api)| && CleanedComponents(api)[i] == ComponentsOf(api)[i]
  {
  }

  // ---------------------------------------------------------------------------
  // Sweeping twice

  lemma {:induction false} KeepUsedLookup(kind: string, fields: seq<(string, Json)>, used: set<string>, key: string)
    requires Address(kind, key) in used
    ensures Lookup(KeepUsed(kind, fields, used), key) == Lookup(fields, key)
    decreases |fields|
  {
    if fields != [] {
      var init := fields[..|fields| - 1];
      var last := fields[|fields| - 1];
      assert fields == init + [last];
      KeepUsedLookup(kind, init, used, key);
      LookupSnoc(init, last, key);
      if Address(kind, last.0) in used {
        LookupSnoc(KeepUsed(kind, init, used), last, key);
      }
    }
  }

  lemma {:induction false} KeepUsedTwice(kind: string, fields: seq<(string, Json)>, used: set<string>)
    ensures KeepUsed(kind, KeepUsed(kind, fields, used), used) == KeepUsed(kind, fields, used)
    decreases |fields|
  {
    if fields != [] {
      var init := fields[..|fields| - 1];
      var last := fields[|fields| - 1];
      assert fields == init + [last];
      var rest := KeepUsed(kind, init, used);
      KeepUsedTwice(kind, init, used);
      if Address(kind, last.0) in used {
        var kept := rest + [last];
        assert kept[..|kept| - 1] == rest;
      }
    }
  }

  lemma {:induction false} CleanComponentsLookup(components: seq<(string, Json)>, used: set<string>, kind: string)
    ensures Lookup(CleanComponents(components, used), kind) ==
      match Lookup(components, kind)
      case Some(registry) => Some(PruneRegistry(kind, registry, used))
      case None => None
  {
    if components != [] {
      CleanComponentsLookup(components[1..], used, kind);
    }
  }

  lemma CleanComponentsTwice(components: seq<(string, Json)>, used: set<string>)
    ensures CleanComponents(CleanComponents(components, used), used) == CleanComponents(components, used)
  {
    var cleaned := CleanComponents(components, used);
    forall i | 0 <= i < |cleaned| && cleaned[i].0 in ComponentsTypes
      ensures PruneRegistry(cleaned[i].0, cleaned[i].1, used) == cleaned[i].1
    {
      KeepUsedTwice(cleaned[i].0, RegistryFields(components[i].1), used);
    }
  }

  lemma {:induction false} ReplaceFixed(fields: seq<(string, Json)>, key: string, value: Json)
    requires forall i :: 0 <= i < |fields| && fields[i].0 == key ==> fields[i].1 == value
    ensures Replace(fields, key, value) == fields
  {
    if fields != [] {
      ReplaceFixed(fields[1..], key, value);
    }
  }

  lemma {:induction false} ReplaceSets(fields: seq<(string, Json)>, key: string, value: Json)
    ensures forall i :: 0 <= i < |fields| && Replace(fields, key, value)[i].0 == key ==>
      Replace(fields, key, value)[i].1 == value
  {
    if fields != [] {
      ReplaceSets(fields[1..], key, value);
      assert forall i :: 1 <= i < |fields| ==> Replace(fields, key, value)[i] == Replace(fields[1..], key, value)[i - 1];
    }
  }

  lemma PutTwice(fields: seq<(string, Json)>, key: string, value: Json)
    ensures Put(Put(fields, key, value), key, value) == Put(fields, key, value)
  {
    var once := Put(fields, key, value);
    if key in Keys(fields) {
      ReplaceSets(fields, key, value);
    } else {
      assert forall i :: 0 <= i < |fields| ==> fields[i].0 == Keys(fields)[i];
    }
    ReplaceFixed(once, key, value);
  }

  /** The address of a component is the reference that names it. */
  lemma AddressOf(namespace: seq<string>)
    requires |namespace| == 3 && namespace[0] == "components"
    ensures Reference(namespace) == Address(namespace[1], namespace[2])
  {
    assert namespace[1..][1..] == [namespace[2]];
    assert Join(namespace[1..]) == namespace[1] + [Separator] + namespace[2];
    assert Join(namespace) == "components" + [Separator] + Join(namespace[1..]);
  }

  /**
   * A reference that either stays out of `components` or names a whole
   * component.  A deeper one such as `#/components/schemas/A/properties/b`
   * does not mark `A` itself.
   */
  predicate ShallowReference(ref: string) {
    match RelativeReferenceToNamespace(ref)
    case Ok(namespace) => namespace[0] != "components" || |namespace| == 3
    case Err(_) => true
  }

  /** Outside `components` the swept document is the original. */
  lemma SweptResolvesOutside(api: Json, used: set<string>, namespace: seq<string>)
    requires api.JObj? && |namespace| >= 1 && namespace[0] != "components"
    ensures ResolveFrom(namespace, 0, Swept(api, used)) == ResolveFrom(namespace, 0, api)
  {
    assert Member(Swept(api, used), namespace[0]) == Member(api, namespace[0]);
  }

  /** A registry entry whose address is used is read alike before and after pruning. */
  lemma PrunedEntry(kind: string, registry: Json, used: set<string>, namespace: seq<string>)
    requires |namespace| == 3 && namespace[1] == kind && IsContainer(registry)
    requires kind in ComponentsTypes ==> registry.JObj?
    requires Address(kind, namespace[2]) in used
    ensures ResolveFrom(namespace, 2, PruneRegistry(kind, registry, used)) == ResolveFrom(namespace, 2, registry)
  {
    if kind in ComponentsTypes {
      KeepUsedLookup(kind, registry.fields, used, namespace[2]);
      assert Member(PruneRegistry(kind, registry, used), namespace[2]) == Member(registry, namespace[2]);
    }
  }

  /** A prunable registry that can be entered is an object. */
  lemma RegistryShaped(api: Json, kind: string)
    requires ApiShaped(api) && Lookup(ComponentsOf(api), kind).Some?
    requires IsContainer(Lookup(ComponentsOf(api), kind).value)
    ensures kind in ComponentsTypes ==> Lookup(ComponentsOf(api), kind).value.JObj?
  {
    var registry := Lookup(ComponentsOf(api), kind).value;
    var j :| 0 <= j < |ComponentsOf(api)| && ComponentsOf(api)[j] == (kind, registry);
  }

  /** The `components` member, once it can be entered, is the object of the components. */
  lemma ComponentsEntered(api: Json)
    requires ApiShaped(api) && Member(api, "components").Some?
    requires IsContainer(Member(api, "components").value)
    ensures Member(api, "components").value == JObj(ComponentsOf(api))
  {
    assert GraphRoot(api, "components") == Member(api, "components").value;
  }

  /** Resolving a whole component in the original enters its registry. */
  lemma OriginalComponentPath(api: Json, namespace: seq<string>)
    requires ApiShaped(api) && |namespace| == 3 && namespace[0] == "components"
    requires ResolveFrom(namespace, 0, api).Ok?
    ensures Lookup(ComponentsOf(api), namespace[1]).Some?
    ensures IsContainer(Lookup(ComponentsOf(api), namespace[1]).value)
    ensures ResolveFrom(namespace, 0, api) == ResolveFrom(namespace, 2, Lookup(ComponentsOf(api), namespace[1]).value)
  {
    var components := Member(api, "components").value;
    assert ResolveFrom(namespace, 0, api) == ResolveFrom(namespace, 1, components);
    ComponentsEntered(api);
    var registry := Lookup(ComponentsOf(api), namespace[1]).value;
    assert ResolveFrom(namespace, 1, components) == ResolveFrom(namespace, 2, registry);
    assert ResolveFrom(namespace, 2, registry).Ok?;
  }

  /** Resolving a whole component in the swept document enters the pruned registry. */
  lemma SweptComponentPath(api: Json, used: set<string>, namespace: seq<string>)
    requires api.JObj? && |namespace| == 3 && namespace[0] == "components"
    requires Lookup(ComponentsOf(api), namespace[1]).Some?
    ensures ResolveFrom(namespace, 0, Swept(api, used)) ==
      ResolveFrom(namespace, 2, PruneRegistry(namespace[1], Lookup(ComponentsOf(api), namespace[1]).value, used))
  {
    SweptMember(api, used);
    EnterCleaned(namespace, ComponentsOf(api), used, Swept(api, used));
  }

  /** Entering pruned components reaches the pruned registry. */
  lemma EnterCleaned(namespace: seq<string>, components: seq<(string, Json)>, used: set<string>, doc: Json)
    requires |namespace| == 3 && Lookup(components, namespace[1]).Some?
    requires Member(doc, namespace[0]) == Some(JObj(CleanComponents(components, used)))
    ensures ResolveFrom(namespace, 0, doc) ==
      ResolveFrom(namespace, 2, PruneRegistry(namespace[1], Lookup(components, namespace[1]).value, used))
  {
    var cleaned := CleanComponents(components, used);
    var kind := namespace[1];
    ResolveFromStep(namespace, 0, doc, JObj(cleaned));
    CleanComponentsLookup(components, used, kind);
    ResolveFromStep(namespace, 1, JObj(cleaned), PruneRegistry(kind, Lookup(components, kind).value, used));
  }

  /** A whole component whose address is used is read alike from the swept document. */
  lemma SweptResolvesComponent(api: Json, used: set<string>, namespace: seq<string>)
    requires ApiShaped(api) && |namespace| == 3 && namespace[0] == "components"
    requires Address(namespace[1], namespace[2]) in used
    requires ResolveFrom(namespace, 0, api).Ok?
    ensures ResolveFrom(namespace, 0, Swept(api, used)) == ResolveFrom(namespace, 0, api)
  {
    var kind := namespace[1];
    OriginalComponentPath(api, namespace);
    SweptComponentPath(api, used, namespace);
    RegistryShaped(api, kind);
    PrunedEntry(kind, Lookup(ComponentsOf(api), kind).value, used, namespace);
  }

  /** The swept document resolves every used shallow reference as the original does. */
  lemma SweptAgrees(api: Json, used: set<string>, ref: string)
    requires ApiShaped(api) && ref in used && ShallowReference(ref)
    requires ResolveReference(api, ref).Ok?
    ensures ResolveReference(Swept(api, used), ref) == ResolveReference(api, ref)
  {
    var namespace := RelativeReferenceToNamespace(ref).value;
    if namespace[0] != "components" {
      SweptResolvesOutside(api, used, namespace);
    } else {
      AddressOf(namespace);
      SweptResolvesComponent(api, used, namespace);
    }
  }

  /** An object put under `key` is the graph root there. */
  lemma PutObject(fields: seq<(string, Json)>, key: string, members: seq<(string, Json)>)
    ensures GraphRoot(JObj(Put(fields, key, JObj(members))), key) == JObj(members)
  {
  }

  /** The swept document's components are the pruned ones. */
  lemma SweptComponents(api: Json, used: set<string>)
    requires api.JObj?
    ensures ComponentsOf(Swept(api, used)) == CleanComponents(ComponentsOf(api), used)
  {
    PutObject(api.fields, "components", CleanComponents(ComponentsOf(api), used));
  }

  /** Pruning leaves every prunable registry an object. */
  lemma CleanComponentsShaped(components: seq<(string, Json)>, used: set<string>)
    ensures forall i | 0 <= i < |CleanComponents(components, used)| ::
      CleanComponents(components, used)[i].0 in ComponentsTypes ==> CleanComponents(components, used)[i].1.JObj?
  {
  }

  /** Sweeping keeps the document's shape. */
  lemma SweptShaped(api: Json, used: set<string>)
    requires api.JObj?
    ensures ApiShaped(Swept(api, used))
  {
    SweptComponents(api, used);
    CleanComponentsShaped(ComponentsOf(api), used);
  }

  /** Sweeping twice against the same references changes nothing more. */
  lemma SweptTwice(api: Json, used: set<string>)
    requires ApiShaped(api)
    ensures Swept(Swept(api, used), used) == Swept(api, used)
  {
    SweptComponents(api, used);
    CleanComponentsTwice(ComponentsOf(api), used);
    PutTwice(api.fields, "components", JObj(CleanComponents(ComponentsOf(api), used)));
  }

  /** The swept document marks the same references, provided they are all shallow. */
  lemma SweptMarksSame(api: Json)
    requires ApiShaped(api) && UsedReferences(api).Ok?
    requires forall ref | ref in UsedReferences(api).value :: ShallowReference(ref)
    ensures UsedReferences(Swept(api, UsedReferences(api).value)) == UsedReferences(api)
  {
    var used := UsedReferences(api).value;
    var clean := Swept(api, used);
    var paths := GraphRoot(api, "paths");
    var webhooks := GraphRoot(api, "webhooks");
    var fromPaths := Collect(api, paths, []).value;
    var fromWebhooks := Collect(api, webhooks, []).value;
    CollectFromEmpty(api, paths);
    CollectFromEmpty(api, webhooks);
    forall ref | ref in used ensures ResolveReference(clean, ref) == ResolveReference(api, ref) {
      SweptAgrees(api, used, ref);
    }
    assert GraphRoot(clean, "paths") == paths && GraphRoot(clean, "webhooks") == webhooks;
    CollectAgree(api, clean, paths, [], Elems(fromPaths));
    CollectAgree(api, clean, webhooks, [], Elems(fromWebhooks));
  }

  /**
   * Sweeping a swept document changes nothing, provided every used reference
   * is shallow.
   */
  lemma CleanupIdempotent(api: Json)
    requires ApiShaped(api) && CleanupOpenAPI(api).Ok?
    requires forall ref | ref in UsedReferences(api).value :: ShallowReference(ref)
    ensures ApiShaped(CleanupOpenAPI(api).value)
    ensures CleanupOpenAPI(CleanupOpenAPI(api).value) == CleanupOpenAPI(api)
  {
    var used := UsedReferences(api).value;
    SweptShaped(api, used);
    SweptMarksSame(api);
    SweptTwice(api, used);
  }

  // ---------------------------------------------------------------------------
  // A deep reference

  /**
   * `{"paths": {"/pets": {"$ref": deep}},
   *   "components": {"schemas": {"A": {"properties": {"b": true}}}}}`.
   */
  function DeepDocument(deep: string): Json {
    JObj([
      ("paths", JObj([("/pets", JObj([("$ref", JStr(deep))]))])),
      ("components", JObj([("schemas", JObj([("A", JObj([("properties", JObj([("b", JBool(true))]))]))]))]))
    ])
  }

  /** A whole-component address differs from the reference of a longer namespace. */
  lemma AddressNotDeeper(component: seq<string>, deeper: seq<string>)
    requires |component| == 3 && component[0] == "components" && IsNamespace(component)
    requires IsNamespace(deeper) && |deeper| != 3
    ensures Address(component[1], component[2]) != Reference(deeper)
  {
    AddressOf(component);
    ParseReference(Reference(component), component);
    ParseReference(Reference(deeper), deeper);
  }

  /** The deep reference resolves in the original document. */
  lemma DeepDocumentResolves(deep: string, namespace: seq<string>)
    requires namespace == ["components", "schemas", "A", "properties", "b"]
    ensures ResolveFrom(namespace, 0, DeepDocument(deep)) == Ok(JBool(true))
  {
    var api := DeepDocument(deep);
    var properties := JObj([("b", JBool(true))]);
    var schemaA := JObj([("properties", properties)]);
    var schemas := JObj([("A", schemaA)]);
    var components := JObj([("schemas", schemas)]);
    assert api.fields[1..] == [("components", components)];
    assert Lookup(api.fields[1..], "components") == Some(components);
    assert Member(api, "components") == Some(components);
    assert Member(components, "schemas") == Some(schemas);
    assert Member(schemas, "A") == Some(schemaA);
    assert Member(schemaA, "properties") == Some(properties);
    assert Member(properties, "b") == Some(JBool(true));
    assert ResolveFrom(namespace, 5, JBool(true)) == Ok(JBool(true));
    assert ResolveFrom(namespace, 4, properties) == Ok(JBool(true));
    assert ResolveFrom(namespace, 3, schemaA) == Ok(JBool(true));
    assert ResolveFrom(namespace, 2, schemas) == Ok(JBool(true));
    assert ResolveFrom(namespace, 1, components) == Ok(JBool(true));
  }

  /** A path whose only item is a pointer to `true` marks exactly that pointer. */
  lemma PetsMarked(api: Json, deep: string)
    requires ResolveReference(api, deep) == Ok(JBool(true))
    ensures Collect(api, JObj([("/pets", JObj([("$ref", JStr(deep))]))]), []) == Ok([deep])
  {
    var pet := JObj([("$ref", JStr(deep))]);
    var paths := JObj([("/pets", pet)]);
    assert StringRef(pet) == Some(deep);
    var listed := [deep];
    assert [] + [deep] == listed;
    assert Collect(api, JBool(true), listed) == Ok(listed);
    assert pet.fields[1..] == [];
    assert CollectFields(api, pet.fields, listed) == Ok(listed);
    assert Collect(api, pet, []) == Ok(listed);
    assert StringRef(paths).None?;
    assert paths.fields[1..] == [];
    assert CollectFields(api, paths.fields, []) == Ok(listed);
  }

  /** The document has no `webhooks`, so that graph root is the empty object. */
  lemma DeepDocumentWebhooks(deep: string)
    ensures GraphRoot(DeepDocument(deep), "webhooks") == JObj([])
  {
    var api := DeepDocument(deep);
    assert api.fields[1..][1..] == [];
    assert Lookup(api.fields[1..][1..], "webhooks").None?;
    assert Lookup(api.fields[1..], "webhooks").None?;
    assert Lookup(api.fields, "webhooks").None?;
  }

  /** Only the deep reference is marked, when it resolves. */
  lemma DeepDocumentMarks(deep: string)
    requires ResolveReference(DeepDocument(deep), deep) == Ok(JBool(true))
    ensures UsedReferences(DeepDocument(deep)) == Ok({deep})
  {
    var api := DeepDocument(deep);
    var paths := JObj([("/pets", JObj([("$ref", JStr(deep))]))]);
    PetsMarked(api, deep);
    DeepDocumentWebhooks(deep);
    DeepDocumentPaths(deep);
    assert Collect(api, JObj([]), []) == Ok([]);
    var listed := [deep];
    var none: seq<string> := [];
    assert UsedReferences(api) == Ok(Elems(listed) + Elems(none));
    assert Elems(listed) + Elems(none) == {deep};
  }

  /** Marking fails on a document of this shape whose deep reference does not resolve. */
  lemma DeepDocumentMarkFails(api: Json, deep: string, error: Error)
    requires api.JObj? && GraphRoot(api, "paths") == JObj([("/pets", JObj([("$ref", JStr(deep))]))])
    requires ResolveReference(api, deep) == Err(error)
    ensures UsedReferences(api) == Err(error)
  {
    var pet := JObj([("$ref", JStr(deep))]);
    var paths := JObj([("/pets", pet)]);
    assert StringRef(pet) == Some(deep);
    assert Collect(api, pet, []) == Err(error);
    assert StringRef(paths).None?;
    assert Collect(api, paths, []) == Err(error);
  }

  /** Sweeping the document against references that miss `A` empties `schemas`. */
  lemma DeepDocumentSwept(deep: string, used: set<string>)
    requires Address("schemas", "A") !in used
    ensures ComponentsOf(Swept(DeepDocument(deep), used)) == [("schemas", JObj([]))]
  {
    var api := DeepDocument(deep);
    var schemaA := JObj([("properties", JObj([("b", JBool(true))]))]);
    var registry := [("A", schemaA)];
    var components := [("schemas", JObj(registry))];
    assert api.fields[1..] == [("components", JObj(components))];
    assert Lookup(api.fields[1..], "components") == Some(JObj(components));
    assert GraphRoot(api, "components") == JObj(components);
    assert registry[..0] == [];
    assert KeepUsed("schemas", registry, used) == [];
    assert CleanComponents(components, used) == [("schemas", JObj([]))];
    SweptComponents(api, used);
  }

  /** The swept document's `components` member is the pruned components. */
  lemma SweptMember(api: Json, used: set<string>)
    requires api.JObj?
    ensures Member(Swept(api, used), "components") == Some(JObj(CleanComponents(ComponentsOf(api), used)))
  {
  }

  /** A document whose `schemas` registry is empty cannot resolve a path through `A`. */
  lemma EmptySchemasFail(doc: Json, namespace: seq<string>)
    requires doc.JObj? && Member(doc, "components") == Some(JObj([("schemas", JObj([]))]))
    requires namespace == ["components", "schemas", "A", "properties", "b"]
    ensures ResolveFrom(namespace, 0, doc) == Err(BadResolveProp(namespace, "A"))
  {
    var components := JObj([("schemas", JObj([]))]);
    assert ResolveFrom(namespace, 0, doc) == ResolveFrom(namespace, 1, components);
    assert Member(components, "schemas") == Some(JObj([]));
    assert ResolveFrom(namespace, 1, components) == ResolveFrom(namespace, 2, JObj([]));
  }

  /** The swept document has lost `A`, so the deep reference no longer resolves. */
  lemma DeepDocumentSweptFails(deep: string, used: set<string>, namespace: seq<string>)
    requires Address("schemas", "A") !in used
    requires namespace == ["components", "schemas", "A", "properties", "b"]
    ensures ResolveFrom(namespace, 0, Swept(DeepDocument(deep), used)) == Err(BadResolveProp(namespace, "A"))
  {
    var api := DeepDocument(deep);
    DeepDocumentSwept(deep, used);
    SweptComponents(api, used);
    SweptMember(api, used);
    EmptySchemasFail(Swept(api, used), namespace);
  }

  lemma DeepDocumentShaped(deep: string)
    ensures ApiShaped(DeepDocument(deep))
  {
    var api := DeepDocument(deep);
    var schemaA := JObj([("properties", JObj([("b", JBool(true))]))]);
    var components := [("schemas", JObj([("A", schemaA)]))];
    assert api.fields[1..] == [("components", JObj(components))];
    assert Lookup(api.fields[1..], "components") == Some(JObj(components));
    assert GraphRoot(api, "components") == JObj(components);
  }

  /** Every graph root other than `components` survives the sweep. */
  lemma SweptGraphRoot(api: Json, used: set<string>, name: string)
    requires api.JObj? && name != "components"
    ensures GraphRoot(Swept(api, used), name) == GraphRoot(api, name)
  {
  }

  /** A second cleanup fails with the error of marking the swept document. */
  lemma SecondCleanupFails(api: Json, error: Error)
    requires ApiShaped(api) && UsedReferences(api).Ok?
    requires UsedReferences(Swept(api, UsedReferences(api).value)) == Err(error)
    ensures CleanupOpenAPI(api).Ok? && ApiShaped(CleanupOpenAPI(api).value)
    ensures CleanupOpenAPI(CleanupOpenAPI(api).value) == Err(error)
  {
    SweptShaped(api, UsedReferences(api).value);
  }

  /** The `paths` of the document hold the one pointer. */
  lemma DeepDocumentPaths(deep: string)
    ensures GraphRoot(DeepDocument(deep), "paths") == JObj([("/pets", JObj([("$ref", JStr(deep))]))])
  {
  }

  /** A second sweep fails as soon as the first has pruned the target of a marked reference. */
  lemma DeepDocumentSweptTwice(deep: string, error: Error)
    requires ResolveReference(DeepDocument(deep), deep) == Ok(JBool(true))
    requires ResolveReference(Swept(DeepDocument(deep), {deep}), deep) == Err(error)
    ensures var api := DeepDocument(deep);
      && ApiShaped(api)
      && CleanupOpenAPI(api).Ok?
      && ApiShaped(CleanupOpenAPI(api).value)
      && CleanupOpenAPI(CleanupOpenAPI(api).value) == Err(error)
  {
    var api := DeepDocument(deep);
    var swept := Swept(api, {deep});
    DeepDocumentMarks(deep);
    DeepDocumentShaped(deep);
    DeepDocumentPaths(deep);
    SweptGraphRoot(api, {deep}, "paths");
    DeepDocumentMarkFails(swept, deep, error);
    SecondCleanupFails(api, error);
  }

  /** Both namespaces of the example are well formed. */
  lemma DeepNamespaces(component: seq<string>, namespace: seq<string>)
    requires component == ["components", "schemas", "A"]
    requires namespace == ["components", "schemas", "A", "properties", "b"]
    ensures IsNamespace(component) && IsNamespace(namespace)
  {
    assert forall i :: 0 <= i < |namespace| ==> |namespace[i]| >= 1 && "/"[0] !in namespace[i];
  }

  /** Without the shallow-reference proviso the sweep is not idempotent. */
  lemma DeepReferenceBreaksIdempotence(namespace: seq<string>)
    requires namespace == ["components", "schemas", "A", "properties", "b"]
    ensures var api := DeepDocument(Reference(namespace));
      && ApiShaped(api)
      && CleanupOpenAPI(api).Ok?
      && ApiShaped(CleanupOpenAPI(api).value)
      && CleanupOpenAPI(CleanupOpenAPI(api).value) == Err(BadResolveProp(namespace, "A"))
  {
    var deep := Reference(namespace);
    var api := DeepDocument(deep);
    var component := ["components", "schemas", "A"];
    DeepNamespaces(component, namespace);
    DeepDocumentResolves(deep, namespace);
    ResolveReferenceOf(api, namespace);
    AddressNotDeeper(component, namespace);
    DeepDocumentSweptFails(deep, {deep}, namespace);
    ResolveReferenceOf(Swept(api, {deep}), namespace);
    DeepDocumentSweptTwice(deep, BadResolveProp(namespace, "A"));
  }
}
