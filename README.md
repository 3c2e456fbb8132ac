# The local-reference engine of ya-open-api-types, in Dafny

This project models the engine in `src/index.ts` that handles OpenAPI 3.1 Reference
Objects. A Reference Object is a JSON object `{"$ref": "#/..."}`; its `$ref` is a local
JSON Pointer in URI-fragment form (section 6 of RFC 6901). The engine has five parts:

- **`relativeReferenceToNamespace`** (module `Pointer`) turns a reference `#/a/b/c`
  into its segments `["a", "b", "c"]`.
  - It fails with `E_UNSUPPORTED_REF` when the reference does not start with `#/`.
  - It fails with `E_BAD_REF` when a segment is empty.
- **`resolveNamespace`** (module `Resolver`) walks a document from its root, one segment
  at a time. It fails with three errors:
  - `E_BAD_RESOLVE_BASE` when a segment is applied to a scalar or to null;
  - `E_BAD_RESOLVE_PROP` when a key is missing;
  - `E_BAD_RESOLVE_LEAF` when the walk ends on null.
- **`ensureResolvedObject`** (module `Dereference`) follows a chain of pointer objects
  until it reaches a value that is not a pointer object.
- **`pathItemToOperationMap`** (module `Operations`) picks out the operations of a Path
  Item Object, in the fixed order of `PATH_ITEM_METHODS`.
- **`collectUsedReferences`** and **`cleanupOpenAPI`** (modules `Collector`,
  `Reachability` and `Cleanup`) form a mark-and-sweep.
  - The mark step lists every reference reachable from `paths` and from `webhooks`.
    It expands each reference at most once, so it terminates on cyclic documents.
  - The sweep keeps, in the six prunable component registries, only the entries whose
    address `#/components/<kind>/<key>` was marked.

The supporting modules are these:

- `Wrappers` holds `Option` and `Result`.
- `Errors` holds the error codes and their payloads.
- `Json` holds the value model.
  - An object is the sequence of its members in `Object.keys` order.
  - Reading a key finds the first member with that key.
  - An array is read with the canonical decimal strings of its indices.

The code follows its own loops, so the model does too. `ResolveNamespace`,
`EnsureResolvedObject`, `OperationsOf` and the collector methods are imperative. Each is
proved against a function (`Resolve`, `Chase`, `PresentMethods`, `Collect`), and the
lemmas state what those functions mean. The collector's shared `usedReferences` array is
the class `Collector.ReferenceList`. The recursive calls push onto it, as in the source.
A throw leaves that array holding every reference pushed before it. The function `Run`
says where the walk stops, throw or not. `Collector.RunAgrees` ties `Run` to `Collect`.

Termination of the collector is proved with a measure that decreases lexicographically:

1. first, the set of references not yet listed that occur in the document or in the
   node being walked;
2. then, the size of the node being walked.

An expanded target is always a subtree of the document, so expanding a reference shrinks
the first component.

The collector and the sweep are characterised without their traversal, in module
`Reachability`:

- A set of references is *closed* when the target of each of its resolvable references
  shows only references of the set.
- A reference is *reachable* from a node when every closed set holding the node's own
  references holds it too.

Starting from an empty list, the collector returns, without repetition, exactly the
reachable references. It fails exactly when every closed covering set has a reference
that does not resolve, and then it fails with that reference's error.

Two behaviours of the code are worth stating plainly.

- **When a reference is recorded.** The collector resolves a new reference before it
  records it (`src/index.ts:598-603`). A reference that does not resolve is therefore
  never pushed onto the shared array. `cleanupOpenAPI` cannot observe this: each of its
  calls starts from a fresh array, and a throw propagates out of it. A caller that passes its own array and
  catches the error does see it: the array then holds exactly the references pushed
  before the throw, each of them resolving (`Reachability.RunListsResolved`).
- **Idempotence of the sweep.** The sweep is not idempotent, and it can remove a
  component that is still referenced.
  - A reference deeper than a whole component, such as
    `#/components/schemas/A/properties/b`, marks only its own string. So `A` is pruned,
    and a second sweep cannot resolve the reference.
  - `Cleanup.DeepReferenceBreaksIdempotence` proves this on a concrete document.
  - Idempotence is proved, as `Cleanup.CleanupIdempotent`, for documents whose marked
    references are all shallow. A shallow reference either stays outside `components` or
    names a whole component.

## Model

| member | source | states |
|---|---|---|
| `Pointer.RelativeReferenceToNamespace` | src/index.ts:363-375 | One of three outcomes. The reference is unsupported exactly when it does not start with `#/`. A local reference fails with `BadRef(ref, segments)` and some segment empty. On success the segments form a namespace: at least one segment, none empty, none containing `/`. Re-joining the segments gives back the reference. |
| `Pointer.ParseReference` | src/index.ts:363-375 | Round trip. Parsing `ref` gives `namespace` exactly when `namespace` is a namespace and `ref` is `#/` followed by its segments joined with `/`. |
| `Pointer.JoinSplit` | src/index.ts:368 | Joining the pieces of a string split at `/` gives back the string. |
| `Pointer.SplitJoin` | src/index.ts:368 | Splitting the join of separator-free pieces gives back the pieces. |
| `Pointer.RejectsRemoteReference` | src/index.ts:364-366 | A reference with a scheme and host is rejected as unsupported, carrying the reference. |
| `Pointer.RejectsEmptyPointer` | src/index.ts:368-372 | `#/` is rejected with `BadRef("#/", [""])`. |
| `Pointer.RejectsDoubleSeparator` | src/index.ts:368-372 | `#/a//b` is rejected with the segments `["a", "", "b"]`. |
| `Pointer.RejectsTrailingSeparator` | src/index.ts:368-372 | `#/a/` is rejected with the segments `["a", ""]`. |
| `Json.Lookup` | src/index.ts:407-411 | A key is absent exactly when no member has it. Otherwise the value is that of the first member with the key. |
| `Json.ArrayMember` | src/index.ts:407-411 | An array holds a key exactly when the key is the decimal string of one of its indices. Under that key it holds that element. |
| `Json.IndexKeyRoundTrip` | src/index.ts:407 | Canonical decimal strings and array indices correspond one to one. |
| `Json.StringRef` | src/index.ts:593-596 | A string `$ref` is found exactly when the object carries `$ref` and its value is a string. |
| `Resolver.ResolveNamespace` | src/index.ts:397-421 | The loop returns what `Resolve` specifies for the root and the namespace. |
| `Resolver.ResolveSucceeds` | src/index.ts:401-416 | Success with `v` holds exactly when using every segment in turn as a key reaches `v` and `v` is not null. |
| `Resolver.ResolveFirstFailure` | src/index.ts:403-410 | The first segment that cannot be applied decides the error: a base error when the value reached is a scalar or null, a property error when the key is missing. |
| `Resolver.ResolveRejectsNullLeaf` | src/index.ts:414-416 | A walk that ends on null fails with `BadResolveLeaf(namespace)`. |
| `Resolver.ResolveErrorExplained` | src/index.ts:401-416 | Every failure is one of the two above: a null leaf, or a first segment that cannot be applied, with its error. |
| `Resolver.ResolveExamples` | src/index.ts:401-416 | On `{"a": {"b": 42}}`: `a/b` gives 42, `a/c` is a missing property, `a/b/c` meets a scalar base. With a null leaf, `a/b` is rejected. |
| `Resolver.ResolveReferenceOf` | src/index.ts:598-601 | Resolving the reference of a namespace is resolving the namespace itself. |
| `Dereference.EnsureResolvedObject` | src/index.ts:450-468 | The loop returns the outcome of the chase. That outcome is never a pointer object. A value that is not a pointer object is returned unchanged. |
| `Dereference.ChaseFuelIrrelevant` | src/index.ts:456-465 | The step bound is only a bound: once the chase ends, more steps give the same outcome. |
| `Dereference.ChaseEndsOnNonReference` | src/index.ts:456-467 | Whenever the chase returns a value, it carries no `$ref`. |
| `Dereference.ChaseErrorFromStep` | src/index.ts:461-464 | Every error of the chase is, unchanged, the parser's or the resolver's error for a reference met on the alias chain, within the step bound. |
| `Dereference.ChasesAliasChain` | src/index.ts:454-467 | In `{"$defs": {"x": {"$ref": "#/$defs/y"}, "y": true}}`, chasing a pointer to `x` follows it to `y` and returns `true`. |
| `Operations.PathItemToOperationMap` | src/index.ts:481-506 | For a path item that is an object or an array, as its type guarantees: the output keys are those of `PATH_ITEM_METHODS` with a truthy value in the path item, in that order. Each key holds the path item's own value. |
| `Operations.OperationsOf` | src/index.ts:494-503 | The loop over any list of methods builds the map that `PresentMethods` specifies, each key holding the path item's value. |
| `Operations.PresentMethodsAre` | src/index.ts:470-503 | A method is present exactly when it is listed and the path item holds a truthy value under it. The present methods keep the listed order. |
| `Operations.OperationMapSound` | src/index.ts:494-503 | Every key of the map is a listed method holding a truthy value. The keys keep the listed order, so non-method keys such as `summary` or `$ref` never appear. |
| `Operations.OperationMapComplete` | src/index.ts:494-503 | Every listed method with a truthy value appears in the map, with the path item's value. |
| `Collector.Collect` | src/index.ts:563-625 | The result extends the input list, since the collector only appends. Scalars and null return the list unchanged. |
| `Collector.ExpansionShrinks` | src/index.ts:593-609 | Listing a new reference and walking into its target strictly shrinks the set of references not yet listed. This is the termination argument. |
| `Collector.CollectRecordsWhereFound` | src/index.ts:593-620 | Discovery order. When an object's new string `$ref` resolves and the collection succeeds, the reference is listed right after the input list. The references met in its target come next, and those met under the sibling keys come after them. |
| `Collector.RunAgrees` | src/index.ts:563-625 | Where the walk stops agrees with `Collect`. It throws exactly the error `Collect` returns, and when it does not throw, the shared list is `Collect`'s result. |
| `Collector.ReferenceList.Push` | src/index.ts:603 | Pushing appends the reference to the shared list. |
| `Collector.CollectUsedReferences` | src/index.ts:563-625 | On every path, throw included, the shared list and the reported error are where `Run` stops. On success the list is what `Collect` returns; otherwise the error is the one `Collect` returns. |
| `Collector.CollectArray` | src/index.ts:576-585 | On every path, throw included, the loop over the elements leaves the shared list and the error where `Run` stops for the array. |
| `Collector.ExpandReference` | src/index.ts:593-609 | The list only grows. On a throw, the list and the error are where `Run` stops for the object, so a reference that does not resolve is not pushed. Otherwise, walking the keys from the new list stops where `Run` stops for the object. |
| `Collector.CollectObject` | src/index.ts:587-622 | On every path, throw included, the object branch leaves the shared list and the error where `Run` stops for the object. This covers the expansion and then the loop over the keys that skips `$ref`. |
| `Reachability.CollectDistinct` | src/index.ts:593-603 | A list without repetition stays without repetition. |
| `Reachability.RunListsResolved` | src/index.ts:593-603 | Wherever the walk stops, a throw included, a shared list without repetition stays without repetition. Every reference the walk added to it resolves, so the one whose resolution threw is never listed. |
| `Reachability.CollectCovers` | src/index.ts:576-620 | Every reference met on the node is listed. Every newly listed reference resolves, and its target's references are listed too. |
| `Reachability.CollectWithin` | src/index.ts:576-620 | Nothing is listed beyond the input list and a closed set holding the node's references. |
| `Reachability.CollectFailure` | src/index.ts:598-601 | A failure is the resolution error of a reference that every closed set holding the node's references contains. |
| `Reachability.CollectAgree` | src/index.ts:563-625 | Two documents that resolve a closed covering set of references alike give the same collection. |
| `Reachability.CollectFromEmpty` | src/index.ts:563-625 | From an empty list: the result has no repetition, covers the node's references, is closed, and resolves entirely. |
| `Reachability.CollectListsReachable` | src/index.ts:563-625 | From an empty list, a reference is listed exactly when it is reachable from the node. |
| `Reachability.CollectSucceeds` | src/index.ts:563-625 | The collection succeeds exactly when some closed set holding the node's references resolves entirely. |
| `Reachability.CollectsSelfReferenceOnce` | src/index.ts:593-609 | A schema that refers to itself is walked once, and its reference is listed once. |
| `Cleanup.Put` | src/index.ts:533-535 | Object spread with one key: the key holds the new value, its place is kept if it already had one, new keys go last, and every other key reads as before. |
| `Cleanup.KeepUsed` | src/index.ts:540-552 | A registry entry survives exactly when it was there and its address was marked. Survivors keep their order and their values. |
| `Cleanup.CleanupOpenAPI` | src/index.ts:519-559 | Marking errors pass through unchanged. Otherwise `components` is present, is an object, and has exactly the kinds of the input in their order. Every other top-level field reads as before, and the key order is kept (`components` goes last if it was absent). |
| `Cleanup.UsedReferencesReachable` | src/index.ts:520-531 | The marked references are exactly those reachable from `paths` or from `webhooks`, in the document. |
| `Cleanup.CleanupSucceeds` | src/index.ts:519-531 | The sweep succeeds exactly when some closed set holding the references met on `paths` and on `webhooks` resolves entirely. |
| `Cleanup.CleanupPrunesRegistry` | src/index.ts:539-552 | A prunable registry keeps its place. It keeps, in order and with their values, exactly the entries whose address is reachable from `paths` or `webhooks`. |
| `Cleanup.CleanupKeepsOtherKinds` | src/index.ts:539-553 | Registries outside `COMPONENTS_TYPES` are carried over unchanged. |
| `Cleanup.KeepUsedTwice` | src/index.ts:540-552 | Filtering a filtered registry by the same marks changes nothing. |
| `Cleanup.SweptAgrees` | src/index.ts:541-549 | The swept document resolves every marked shallow reference as the original does. |
| `Cleanup.CleanupIdempotent` | src/index.ts:519-559 | When every marked reference is shallow, the result keeps the document's shape and sweeping it again gives the same result. |
| `Cleanup.DeepReferenceBreaksIdempotence` | src/index.ts:541-545 | A document whose only path points to `#/components/schemas/A/properties/b` sweeps once successfully. Sweeping the result fails with a missing `A`. |

## Left out

- Asynchrony: every function of the engine is `async` but performs no I/O, so the model is synchronous.
- Errors are a datatype of code and payload, in place of the `YError` class of the yerror library.
- Type declarations and overload signatures (`src/index.ts:1-361`, `377-396`, `423-449`) have no behaviour.
- `name in resolved` in the source also sees inherited keys such as `toString`, and the `length` of an array. The model reads own keys only, and array elements by their canonical index strings.
- JSON numbers are integers. No decision in the engine depends on a fraction.
- Dereference.EnsureResolvedObject: requires a bound on the length of the alias chain and a string `$ref` at every link, through the precondition that the chase ends. The source loops forever on a pure alias cycle, and it throws a TypeError on a non-string `$ref`. Neither has an error code.
- A null or primitive path item given to `pathItemToOperationMap`: `method in pathItem` throws a TypeError there, which has no error code. `Operations.PathItemToOperationMap` and `Operations.OperationsOf` require an object or an array, as the `OpenAPIPathItem` parameter type guarantees.
- Cleanup.CleanupIdempotent: stated only when every marked reference is shallow, because the source is not idempotent otherwise (`Cleanup.DeepReferenceBreaksIdempotence`).
- Cleanup.CleanupOpenAPI: requires the document to have the shape its `OpenAPI` parameter type guarantees. It is an object, and `components` and each prunable registry are absent, falsy, or objects.
- RFC 6901 decoding (the `~0`/`~1` escapes of section 4, and percent-decoding) is not performed by the source, and not by the model.
- `node[key] || null` on a falsy member value: the model walks the value itself. A falsy value is a scalar or null, so either way nothing is collected.
- The `usedReferences` array that `cleanupOpenAPI` deduplicates through a `Set` is a set here. The sweep uses it only through `includes`.
- Duplicate keys in one object are kept as separate members in enumeration order, while reads find the first. Parsed JSON in the source language keeps only the last occurrence.
- `src/index.test.ts` is not part of this model: it builds a typed literal and asserts nothing about behaviour.
