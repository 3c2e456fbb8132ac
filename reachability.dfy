/**
 * What the collector computes, stated without its traversal: starting from an
 * empty list, it returns, without repetition, exactly the references reachable
 * from the value it walks, where a reference is reachable when it is met on the
 * walk itself or inside the target of a reachable reference.  It fails exactly
 * when some reachable reference does not resolve, and then with that
 * reference's error.
 */
module Reachability {
  import opened Wrappers
  import opened Errors
  import opened Json
  import opened Pointer
  import opened Resolver
  import opened Collector

  // ---------------------------------------------------------------------------
  // The references a value shows without following any

  /**
   * The string references met by walking `v` without following them: an
   * object's own string `$ref` and those under each of its other keys, and
   * those of every array element.  The value under a `$ref` key is never walked.
   */
  ghost function Surface(v: Json): set<string>
    decreases v
  {
    match v
    case JArr(items) => ItemsSurface(items)
    case JObj(fields) => OwnRef(v) + FieldsSurface(fields)
    case _ => {}
  }

  ghost function OwnRef(v: Json): set<string> {
    if StringRef(v).Some? then {StringRef(v).value} else {}
  }

  ghost function ItemsSurface(items: seq<Json>): set<string>
    decreases items
  {
    if items == [] then {} else Surface(items[0]) + ItemsSurface(items[1..])
  }

  ghost function FieldsSurface(fields: seq<(string, Json)>): set<string>
    decreases fields
  {
    if fields == [] then {} else MemberSurface(fields[0]) + FieldsSurface(fields[1..])
  }

  ghost function MemberSurface(member: (string, Json)): set<string>
    decreases member
  {
    if member.0 == "$ref" then {} else Surface(member.1)
  }

  /** Every resolvable reference in `refs` has its target's references in `refs`. */
  ghost predicate Closed(root: Json, refs: set<string>) {
    forall ref | ref in refs && ResolveReference(root, ref).Ok? ::
      Surface(ResolveReference(root, ref).value) <= refs
  }

  /** Every reference in `newer` resolves, and its target's references are in `refs`. */
  ghost predicate Settled(root: Json, newer: set<string>, refs: set<string>) {
    forall ref | ref in newer ::
      ResolveReference(root, ref).Ok? && Surface(ResolveReference(root, ref).value) <= refs
  }

  ghost predicate AllResolve(root: Json, refs: set<string>) {
    forall ref | ref in refs :: ResolveReference(root, ref).Ok?
  }

  ghost predicate Distinct(list: seq<string>) {
    forall i, j | 0 <= i < j < |list| :: list[i] != list[j]
  }

  /** Two documents resolve every reference of `refs` alike. */
  ghost predicate Agree(root: Json, other: Json, refs: set<string>) {
    forall ref | ref in refs :: ResolveReference(other, ref) == ResolveReference(root, ref)
  }

  // ---------------------------------------------------------------------------
  // Helpers

  lemma DistinctSnoc(list: seq<string>, ref: string)
    requires Distinct(list) && ref !in list
    ensures Distinct(list + [ref])
  {
    var longer := list + [ref];
    forall i, j | 0 <= i < j < |longer| ensures longer[i] != longer[j] {
      if j == |list| {
        assert longer[i] == list[i];
      } else {
        assert longer[i] == list[i] && longer[j] == list[j];
      }
    }
  }

  lemma SnocElems(list: seq<string>, ref: string)
    ensures Elems(list + [ref]) == Elems(list) + {ref}
  {
    assert forall x :: x in list + [ref] <==> x in list || x == ref;
  }

  lemma SettledWiden(root: Json, newer: set<string>, refs: set<string>, wider: set<string>)
    requires Settled(root, newer, refs) && refs <= wider
    ensures Settled(root, newer, wider)
  {
  }

  lemma SurfaceSplit(fields: seq<(string, Json)>)
    requires fields != []
    ensures FieldsSurface(fields) == MemberSurface(fields[0]) + FieldsSurface(fields[1..])
    ensures fields[0].0 != "$ref" ==> Surface(fields[0].1) <= FieldsSurface(fields)
  {
  }

  // ---------------------------------------------------------------------------
  // No repetition

  /** A list without repetition stays without repetition. */
  lemma {:induction false} CollectDistinct(root: Json, node: Json, used: seq<string>)
    requires Distinct(used) && Collect(root, node, used).Ok?
    ensures Distinct(Collect(root, node, used).value)
    decreases Pending(root, AllRefs(node), used), Size(node), 0
  {
    match node
    case JArr(items) =>
      ItemsDistinct(root, items, used);
    case JObj(fields) =>
      var ref := StringRef(node);
      if ref.Some? && ref.value !in used {
        var target := ResolveReference(root, ref.value).value;
        ExpansionShrinks(root, node, used, target);
        DistinctSnoc(used, ref.value);
        CollectDistinct(root, target, used + [ref.value]);
        var expanded := Collect(root, target, used + [ref.value]).value;
        PrefixElems(used, expanded);
        FieldsDistinct(root, fields, expanded);
      } else {
        FieldsDistinct(root, fields, used);
      }
    case _ =>
  }

  lemma {:induction false} ItemsDistinct(root: Json, items: seq<Json>, used: seq<string>)
    requires Distinct(used) && CollectItems(root, items, used).Ok?
    ensures Distinct(CollectItems(root, items, used).value)
    decreases Pending(root, ItemsRefs(items), used), ItemsSize(items), 1
  {
    if items != [] {
      CollectDistinct(root, items[0], used);
      var first := Collect(root, items[0], used).value;
      PrefixElems(used, first);
      ItemsDistinct(root, items[1..], first);
    }
  }

  lemma {:induction false} FieldsDistinct(root: Json, fields: seq<(string, Json)>, used: seq<string>)
    requires Distinct(used) && CollectFields(root, fields, used).Ok?
    ensures Distinct(CollectFields(root, fields, used).value)
    decreases Pending(root, FieldsRefs(fields), used), FieldsSize(fields), 1
  {
    if fields != [] {
      FieldsSplit(fields);
      if fields[0].0 == "$ref" {
        FieldsDistinct(root, fields[1..], used);
      } else {
        CollectDistinct(root, fields[0].1, used);
        var first := Collect(root, fields[0].1, used).value;
        PrefixElems(used, first);
        FieldsDistinct(root, fields[1..], first);
      }
    }
  }

  // ---------------------------------------------------------------------------
  // The shared list after a throw

  lemma ResolvedChain(root: Json, a: seq<string>, b: seq<string>, c: seq<string>)
    requires AllResolve(root, Elems(b) - Elems(a)) && AllResolve(root, Elems(c) - Elems(b))
    ensures AllResolve(root, Elems(c) - Elems(a))
  {
  }

  /**
   * Wherever the walk stops, a throw included, the shared list keeps without
   * repetition, and every reference the walk added to it resolves: the one
   * whose resolution threw is never listed.
   */
  lemma {:induction false} RunListsResolved(root: Json, node: Json, used: seq<string>)
    requires Distinct(used)
    ensures Distinct(Run(root, node, used).list)
    ensures AllResolve(root, Elems(Run(root, node, used).list) - Elems(used))
    decreases Pending(root, AllRefs(node), used), Size(node), 1
  {
    match node
    case JArr(items) =>
      RunItemsListResolved(root, items, used);
    case JObj(fields) =>
      RunObjectListsResolved(root, node, used);
    case _ =>
  }

  lemma {:induction false} RunObjectListsResolved(root: Json, node: Json, used: seq<string>)
    requires node.JObj? && Distinct(used)
    ensures Distinct(Run(root, node, used).list)
    ensures AllResolve(root, Elems(Run(root, node, used).list) - Elems(used))
    decreases Pending(root, AllRefs(node), used), Size(node), 0
  {
    var ref := StringRef(node);
    if ref.Some? && ref.value !in used {
      match ResolveReference(root, ref.value)
      case Err(e) =>
        assert Run(root, node, used) == Halt(used, Some(e));
      case Ok(target) =>
        var grown := used + [ref.value];
        ExpansionShrinks(root, node, used, target);
        RunExpanding(root, node, used, target);
        DistinctSnoc(used, ref.value);
        SnocElems(used, ref.value);
        RunListsResolved(root, target, grown);
        var expanded := Run(root, target, grown);
        assert AllResolve(root, Elems(expanded.list) - Elems(used));
        if expanded.thrown.None? {
          PrefixElems(used, expanded.list);
          RunFieldsListResolved(root, node.fields, expanded.list);
          ResolvedChain(root, used, expanded.list, RunFields(root, node.fields, expanded.list).list);
        }
    } else {
      RunFieldsListResolved(root, node.fields, used);
    }
  }

  lemma {:induction false} RunItemsListResolved(root: Json, items: seq<Json>, used: seq<string>)
    requires Distinct(used)
    ensures Distinct(RunItems(root, items, used).list)
    ensures AllResolve(root, Elems(RunItems(root, items, used).list) - Elems(used))
    decreases Pending(root, ItemsRefs(items), used), ItemsSize(items), 2
  {
    if items != [] {
      RunListsResolved(root, items[0], used);
      var first := Run(root, items[0], used);
      if first.thrown.None? {
        PrefixElems(used, first.list);
        RunItemsListResolved(root, items[1..], first.list);
        ResolvedChain(root, used, first.list, RunItems(root, items[1..], first.list).list);
      }
    }
  }

  lemma {:induction false} RunFieldsListResolved(root: Json, fields: seq<(string, Json)>, used: seq<string>)
    requires Distinct(used)
    ensures Distinct(RunFields(root, fields, used).list)
    ensures AllResolve(root, Elems(RunFields(root, fields, used).list) - Elems(used))
    decreases Pending(root, FieldsRefs(fields), used), FieldsSize(fields), 2
  {
    if fields != [] {
      FieldsSplit(fields);
      if fields[0].0 == "$ref" {
        RunFieldsListResolved(root, fields[1..], used);
      } else {
        RunListsResolved(root, fields[0].1, used);
        var first := Run(root, fields[0].1, used);
        if first.thrown.None? {
          PrefixElems(used, first.list);
          RunFieldsListResolved(root, fields[1..], first.list);
          ResolvedChain(root, used, first.list, RunFields(root, fields[1..], first.list).list);
        }
      }
    }
  }

  // ---------------------------------------------------------------------------
  // Completeness: everything met is listed, and every new entry was expanded

  lemma {:induction false} CollectCovers(root: Json, node: Json, used: seq<string>)
    requires Collect(root, node, used).Ok?
    ensures Surface(node) <= Elems(Collect(root, node, used).value)
    ensures Settled(root, Elems(Collect(root, node, used).value) - Elems(used),
      Elems(Collect(root, node, used).value))
    decreases Pending(root, AllRefs(node), used), Size(node), 0
  {
    match node
    case JArr(items) =>
      ItemsCovers(root, items, used);
    case JObj(fields) =>
      var ref := StringRef(node);
      var result := Collect(root, node, used).value;
      if ref.Some? && ref.value !in used {
        var target := ResolveReference(root, ref.value).value;
        ExpansionShrinks(root, node, used, target);
        var grown := used + [ref.value];
        CollectCovers(root, target, grown);
        var expanded := Collect(root, target, grown).value;
        PrefixElems(used, expanded);
        FieldsCovers(root, fields, expanded);
        assert result == CollectFields(root, fields, expanded).value;
        PrefixElems(expanded, result);
        SnocElems(used, ref.value);
        PrefixElems(grown, expanded);
        SettledWiden(root, Elems(expanded) - Elems(grown), Elems(expanded), Elems(result));
        assert Settled(root, {ref.value}, Elems(result));
      } else {
        FieldsCovers(root, fields, used);
        if ref.Some? {
          PrefixElems(used, result);
        }
      }
    case _ =>
  }

  lemma {:induction false} ItemsCovers(root: Json, items: seq<Json>, used: seq<string>)
    requires CollectItems(root, items, used).Ok?
    ensures ItemsSurface(items) <= Elems(CollectItems(root, items, used).value)
    ensures Settled(root, Elems(CollectItems(root, items, used).value) - Elems(used),
      Elems(CollectItems(root, items, used).value))
    decreases Pending(root, ItemsRefs(items), used), ItemsSize(items), 1
  {
    if items != [] {
      CollectCovers(root, items[0], used);
      var first := Collect(root, items[0], used).value;
      PrefixElems(used, first);
      ItemsCovers(root, items[1..], first);
      var result := CollectItems(root, items, used).value;
      PrefixElems(first, result);
      SettledWiden(root, Elems(first) - Elems(used), Elems(first), Elems(result));
    }
  }

  lemma {:induction false} FieldsCovers(root: Json, fields: seq<(string, Json)>, used: seq<string>)
    requires CollectFields(root, fields, used).Ok?
    ensures FieldsSurface(fields) <= Elems(CollectFields(root, fields, used).value)
    ensures Settled(root, Elems(CollectFields(root, fields, used).value) - Elems(used),
      Elems(CollectFields(root, fields, used).value))
    decreases Pending(root, FieldsRefs(fields), used), FieldsSize(fields), 1
  {
    if fields != [] {
      FieldsSplit(fields);
      SurfaceSplit(fields);
      if fields[0].0 == "$ref" {
        FieldsCovers(root, fields[1..], used);
      } else {
        CollectCovers(root, fields[0].1, used);
        var first := Collect(root, fields[0].1, used).value;
        PrefixElems(used, first);
        FieldsCovers(root, fields[1..], first);
        var result := CollectFields(root, fields, used).value;
        PrefixElems(first, result);
        SettledWiden(root, Elems(first) - Elems(used), Elems(first), Elems(result));
      }
    }
  }

  // ---------------------------------------------------------------------------
  // Soundness: nothing is listed that a closed set of references lacks

  lemma {:induction false} CollectWithin(root: Json, node: Json, used: seq<string>, refs: set<string>)
    requires Closed(root, refs) && Surface(node) <= refs
    requires Collect(root, node, used).Ok?
    ensures Elems(Collect(root, node, used).value) <= Elems(used) + refs
    decreases Pending(root, AllRefs(node), used), Size(node), 0
  {
    match node
    case JArr(items) =>
      ItemsWithin(root, items, used, refs);
    case JObj(fields) =>
      var ref := StringRef(node);
      if ref.Some? && ref.value !in used {
        var target := ResolveReference(root, ref.value).value;
        ExpansionShrinks(root, node, used, target);
        assert ref.value in refs;
        var grown := used + [ref.value];
        CollectWithin(root, target, grown, refs);
        var expanded := Collect(root, target, grown).value;
        SnocElems(used, ref.value);
        PrefixElems(used, expanded);
        FieldsWithin(root, fields, expanded, refs);
      } else {
        FieldsWithin(root, fields, used, refs);
      }
    case _ =>
  }

  lemma {:induction false} ItemsWithin(root: Json, items: seq<Json>, used: seq<string>, refs: set<string>)
    requires Closed(root, refs) && ItemsSurface(items) <= refs
    requires CollectItems(root, items, used).Ok?
    ensures Elems(CollectItems(root, items, used).value) <= Elems(used) + refs
    decreases Pending(root, ItemsRefs(items), used), ItemsSize(items), 1
  {
    if items != [] {
      CollectWithin(root, items[0], used, refs);
      var first := Collect(root, items[0], used).value;
      PrefixElems(used, first);
      ItemsWithin(root, items[1..], first, refs);
    }
  }

  lemma {:induction false} FieldsWithin(root: Json, fields: seq<(string, Json)>, used: seq<string>, refs: set<string>)
    requires Closed(root, refs) && FieldsSurface(fields) <= refs
    requires CollectFields(root, fields, used).Ok?
    ensures Elems(CollectFields(root, fields, used).value) <= Elems(used) + refs
    decreases Pending(root, FieldsRefs(fields), used), FieldsSize(fields), 1
  {
    if fields != [] {
      FieldsSplit(fields);
      SurfaceSplit(fields);
      if fields[0].0 == "$ref" {
        FieldsWithin(root, fields[1..], used, refs);
      } else {
        CollectWithin(root, fields[0].1, used, refs);
        var first := Collect(root, fields[0].1, used).value;
        PrefixElems(used, first);
        FieldsWithin(root, fields[1..], first, refs);
      }
    }
  }

  // ---------------------------------------------------------------------------
  // Failure: the error is that of a reference every closed set holds

  lemma {:induction false} CollectFailure(root: Json, node: Json, used: seq<string>, refs: set<string>)
    requires Closed(root, refs) && Surface(node) <= refs
    requires Collect(root, node, used).Err?
    ensures exists ref :: ref in refs && ResolveReference(root, ref) == Err(Collect(root, node, used).error)
    decreases Pending(root, AllRefs(node), used), Size(node), 0
  {
    match node
    case JArr(items) =>
      ItemsFailure(root, items, used, refs);
    case JObj(fields) =>
      var ref := StringRef(node);
      if ref.Some? && ref.value !in used {
        assert ref.value in refs;
        if ResolveReference(root, ref.value).Ok? {
          var target := ResolveReference(root, ref.value).value;
          ExpansionShrinks(root, node, used, target);
          var grown := used + [ref.value];
          if Collect(root, target, grown).Err? {
            CollectFailure(root, target, grown, refs);
          } else {
            var expanded := Collect(root, target, grown).value;
            PrefixElems(used, expanded);
            FieldsFailure(root, fields, expanded, refs);
          }
        }
      } else {
        FieldsFailure(root, fields, used, refs);
      }
  }

  lemma {:induction false} ItemsFailure(root: Json, items: seq<Json>, used: seq<string>, refs: set<string>)
    requires Closed(root, refs) && ItemsSurface(items) <= refs
    requires CollectItems(root, items, used).Err?
    ensures exists ref :: ref in refs && ResolveReference(root, ref) == Err(CollectItems(root, items, used).error)
    decreases Pending(root, ItemsRefs(items), used), ItemsSize(items), 1
  {
    if Collect(root, items[0], used).Err? {
      CollectFailure(root, items[0], used, refs);
    } else {
      var first := Collect(root, items[0], used).value;
      PrefixElems(used, first);
      ItemsFailure(root, items[1..], first, refs);
    }
  }

  lemma {:induction false} FieldsFailure(root: Json, fields: seq<(string, Json)>, used: seq<string>, refs: set<string>)
    requires Closed(root, refs) && FieldsSurface(fields) <= refs
    requires CollectFields(root, fields, used).Err?
    ensures exists ref :: ref in refs && ResolveReference(root, ref) == Err(CollectFields(root, fields, used).error)
    decreases Pending(root, FieldsRefs(fields), used), FieldsSize(fields), 1
  {
    FieldsSplit(fields);
    SurfaceSplit(fields);
    if fields[0].0 == "$ref" {
      FieldsFailure(root, fields[1..], used, refs);
    } else if Collect(root, fields[0].1, used).Err? {
      CollectFailure(root, fields[0].1, used, refs);
    } else {
      var first := Collect(root, fields[0].1, used).value;
      PrefixElems(used, first);
      FieldsFailure(root, fields[1..], first, refs);
    }
  }

  // ---------------------------------------------------------------------------
  // Congruence: only the resolution of the references met matters

  /** Two documents that resolve a closed set of references alike give the same collection. */
  lemma {:induction false} CollectAgree(root: Json, other: Json, node: Json, used: seq<string>, refs: set<string>)
    requires Closed(root, refs) && Agree(root, other, refs) && Surface(node) <= refs
    ensures Collect(other, node, used) == Collect(root, node, used)
    decreases Pending(root, AllRefs(node), used), Size(node), 1
  {
    match node
    case JArr(items) =>
      ItemsAgree(root, other, items, used, refs);
    case JObj(fields) =>
      ObjectAgree(root, other, node, used, refs);
    case _ =>
  }

  lemma {:induction false} ObjectAgree(root: Json, other: Json, node: Json, used: seq<string>, refs: set<string>)
    requires node.JObj?
    requires Closed(root, refs) && Agree(root, other, refs) && Surface(node) <= refs
    ensures Collect(other, node, used) == Collect(root, node, used)
    decreases Pending(root, AllRefs(node), used), Size(node), 0
  {
    var ref := StringRef(node);
    if ref.Some? && ref.value !in used {
      assert ref.value in refs;
      assert ResolveReference(other, ref.value) == ResolveReference(root, ref.value);
      if ResolveReference(root, ref.value).Ok? {
        var target := ResolveReference(root, ref.value).value;
        ExpansionShrinks(root, node, used, target);
        CollectExpanding(root, node, used, target);
        CollectExpanding(other, node, used, target);
        var grown := used + [ref.value];
        CollectAgree(root, other, target, grown, refs);
        if Collect(root, target, grown).Ok? {
          var expanded := Collect(root, target, grown).value;
          PrefixElems(used, expanded);
          FieldsAgree(root, other, node.fields, expanded, refs);
        }
      } else {
        CollectStuck(root, node, used);
        CollectStuck(other, node, used);
      }
    } else {
      CollectNotExpanding(root, node, used);
      CollectNotExpanding(other, node, used);
      FieldsAgree(root, other, node.fields, used, refs);
    }
  }

  lemma {:induction false} ItemsAgree(root: Json, other: Json, items: seq<Json>, used: seq<string>, refs: set<string>)
    requires Closed(root, refs) && Agree(root, other, refs) && ItemsSurface(items) <= refs
    ensures CollectItems(other, items, used) == CollectItems(root, items, used)
    decreases Pending(root, ItemsRefs(items), used), ItemsSize(items), 2
  {
    if items != [] {
      CollectAgree(root, other, items[0], used, refs);
      if Collect(root, items[0], used).Ok? {
        var first := Collect(root, items[0], used).value;
        PrefixElems(used, first);
        ItemsAgree(root, other, items[1..], first, refs);
      }
    }
  }

  lemma {:induction false} FieldsAgree(root: Json, other: Json, fields: seq<(string, Json)>, used: seq<string>, refs: set<string>)
    requires Closed(root, refs) && Agree(root, other, refs) && FieldsSurface(fields) <= refs
    ensures CollectFields(other, fields, used) == CollectFields(root, fields, used)
    decreases Pending(root, FieldsRefs(fields), used), FieldsSize(fields), 2
  {
    if fields != [] {
      FieldsSplit(fields);
      SurfaceSplit(fields);
      if fields[0].0 == "$ref" {
        FieldsAgree(root, other, fields[1..], used, refs);
      } else {
        CollectAgree(root, other, fields[0].1, used, refs);
        if Collect(root, fields[0].1, used).Ok? {
          var first := Collect(root, fields[0].1, used).value;
          PrefixElems(used, first);
          FieldsAgree(root, other, fields[1..], first, refs);
        }
      }
    }
  }

  // ---------------------------------------------------------------------------
  // The collection from an empty list

  /** A reference every closed set holding the references of `node` holds. */
  ghost predicate Reachable(root: Json, node: Json, ref: string) {
    forall refs | Closed(root, refs) && Surface(node) <= refs :: ref in refs
  }

  /**
   * From an empty list the collector lists, once each, the references met on
   * `node`, and with each listed reference it lists its target's.
   */
  lemma CollectFromEmpty(root: Json, node: Json)
    requires Collect(root, node, []).Ok?
    ensures Distinct(Collect(root, node, []).value)
    ensures Surface(node) <= Elems(Collect(root, node, []).value)
    ensures Closed(root, Elems(Collect(root, node, []).value))
    ensures AllResolve(root, Elems(Collect(root, node, []).value))
    ensures Settled(root, Elems(Collect(root, node, []).value), Elems(Collect(root, node, []).value))
  {
    CollectDistinct(root, node, []);
    CollectCovers(root, node, []);
    assert Elems([]) == {};
  }

  /** From an empty list the collector lists exactly the reachable references. */
  lemma CollectListsReachable(root: Json, node: Json, ref: string)
    requires Collect(root, node, []).Ok?
    ensures ref in Collect(root, node, []).value <==> Reachable(root, node, ref)
  {
    var found := Elems(Collect(root, node, []).value);
    CollectFromEmpty(root, node);
    forall refs | Closed(root, refs) && Surface(node) <= refs
      ensures found <= refs
    {
      CollectWithin(root, node, [], refs);
      assert Elems([]) == {};
    }
  }

  /** The collection succeeds iff some closed set holding the references of `node` resolves entirely. */
  lemma CollectSucceeds(root: Json, node: Json)
    ensures Collect(root, node, []).Ok? <==>
      exists refs :: Closed(root, refs) && Surface(node) <= refs && AllResolve(root, refs)
  {
    if Collect(root, node, []).Ok? {
      CollectFromEmpty(root, node);
      var found := Elems(Collect(root, node, []).value);
      assert Closed(root, found) && Surface(node) <= found && AllResolve(root, found);
    } else {
      forall refs | Closed(root, refs) && Surface(node) <= refs
        ensures !AllResolve(root, refs)
      {
        CollectFailure(root, node, [], refs);
      }
    }
  }

  // ---------------------------------------------------------------------------
  // A self-referential schema

  /** `{"type": "object", "properties": {"next": {"$ref": ref}}}`. */
  function NodeSchema(ref: string): Json {
    JObj([("type", JStr("object")), ("properties", JObj([("next", JObj([("$ref", JStr(ref))]))]))])
  }

  /** `{"$defs": {"Node": NodeSchema(ref)}}`. */
  function LinkedListDocument(ref: string): Json {
    JObj([("$defs", JObj([("Node", NodeSchema(ref))]))])
  }

  /** Once its own reference is listed, the schema adds nothing. */
  lemma NodeSchemaCollected(root: Json, ref: string, listed: seq<string>)
    requires ref in listed
    ensures Collect(root, NodeSchema(ref), listed) == Ok(listed)
  {
    var link := JObj([("$ref", JStr(ref))]);
    var node := NodeSchema(ref);
    var properties := JObj([("next", link)]);
    assert StringRef(link) == Some(ref);
    CollectNotExpanding(root, link, listed);
    assert link.fields[1..] == [];
    assert CollectFields(root, link.fields, listed) == Ok(listed);
    assert StringRef(properties).None?;
    CollectNotExpanding(root, properties, listed);
    assert properties.fields[1..] == [];
    assert CollectFields(root, properties.fields, listed) == Ok(listed);
    assert StringRef(node).None?;
    CollectNotExpanding(root, node, listed);
    assert node.fields[1..] == [("properties", properties)];
    assert node.fields[1..][1..] == [];
    assert CollectFields(root, node.fields[1..], listed) == Ok(listed);
    assert Collect(root, JStr("object"), listed) == Ok(listed);
  }

  /** The reference to `Node` resolves to the schema. */
  lemma NodeResolves(namespace: seq<string>)
    requires namespace == ["$defs", "Node"]
    ensures var ref := Reference(namespace);
      ResolveReference(LinkedListDocument(ref), ref) == Ok(NodeSchema(ref))
  {
    var ref := Reference(namespace);
    var root := LinkedListDocument(ref);
    var node := NodeSchema(ref);
    var defs := JObj([("Node", node)]);
    assert Member(root, "$defs") == Some(defs);
    assert Member(defs, "Node") == Some(node);
    assert ResolveFrom(namespace, 1, defs) == Ok(node);
    assert forall i :: 0 <= i < |namespace| ==> |namespace[i]| >= 1 && "/"[0] !in namespace[i];
    ResolveReferenceOf(root, namespace);
  }

  /**
   * A schema that refers to itself: collecting from a reference to it lists the
   * reference once and stops.
   */
  lemma CollectsSelfReferenceOnce(namespace: seq<string>)
    requires namespace == ["$defs", "Node"]
    ensures var ref := Reference(namespace);
      Collect(LinkedListDocument(ref), JObj([("$ref", JStr(ref))]), []) == Ok([ref])
  {
    var ref := Reference(namespace);
    var root := LinkedListDocument(ref);
    var link := JObj([("$ref", JStr(ref))]);
    var listed := [ref];
    NodeResolves(namespace);
    assert StringRef(link) == Some(ref);
    CollectExpanding(root, link, [], NodeSchema(ref));
    assert [] + [ref] == listed;
    NodeSchemaCollected(root, ref, listed);
    assert link.fields[1..] == [];
    assert CollectFields(root, link.fields, listed) == Ok(listed);
  }
}
