/**
 * The reachability collector, `collectUsedReferences`: a depth-first walk of a
 * value that records every string `$ref` it meets, in first-discovered order,
 * and walks into each newly recorded reference's target at the point where it
 * is discovered.  A reference already recorded is not expanded again, which is
 * what makes the walk end on cyclic documents.
 */
module Collector {
  import opened Wrappers
  import opened Errors
  import opened Json
  import opened Pointer
  import opened Resolver

  // ---------------------------------------------------------------------------
  // The termination measure

  /** Every string stored under a `$ref` key anywhere inside `v`. */
  ghost function AllRefs(v: Json): set<string>
    decreases v
  {
    match v
    case JArr(items) => ItemsRefs(items)
    case JObj(fields) => FieldsRefs(fields)
    case _ => {}
  }

  ghost function ItemsRefs(items: seq<Json>): set<string>
    decreases items
  {
    if items == [] then {} else AllRefs(items[0]) + ItemsRefs(items[1..])
  }

  ghost function FieldsRefs(fields: seq<(string, Json)>): set<string>
    decreases fields
  {
    if fields == [] then {} else MemberRefs(fields[0]) + FieldsRefs(fields[1..])
  }

  ghost function MemberRefs(member: (string, Json)): set<string>
    decreases member
  {
    (if member.0 == "$ref" && member.1.JStr? then {member.1.s} else {}) + AllRefs(member.1)
  }

  function Elems(list: seq<string>): set<string> {
    set ref | ref in list
  }

  /**
   * The references that could still be expanded: those occurring in the root or
   * in the value being walked that are not yet recorded.
   */
  ghost function Pending(root: Json, local: set<string>, used: seq<string>): set<string> {
    (AllRefs(root) + local) - Elems(used)
  }

  lemma {:induction false} ItemWithin(items: seq<Json>, i: nat)
    requires i < |items|
    ensures AllRefs(items[i]) <= ItemsRefs(items) && Size(items[i]) <= ItemsSize(items)
  {
    if i > 0 {
      ItemWithin(items[1..], i - 1);
    }
  }

  lemma {:induction false} FieldWithin(fields: seq<(string, Json)>, i: nat)
    requires i < |fields|
    ensures MemberRefs(fields[i]) <= FieldsRefs(fields)
    ensures AllRefs(fields[i].1) <= FieldsRefs(fields) && Size(fields[i].1) <= FieldsSize(fields)
  {
    if i > 0 {
      FieldWithin(fields[1..], i - 1);
    }
  }

  /** A value held by `v` has no reference `v` does not have. */
  lemma MemberWithin(v: Json, name: string)
    requires Member(v, name).Some?
    ensures AllRefs(Member(v, name).value) <= AllRefs(v)
  {
    match v
    case JArr(items) =>
      var i := ParseIndex(name).value;
      ItemWithin(items, i);
    case JObj(fields) =>
      var i :| 0 <= i < |fields| && fields[i] == (name, Member(v, name).value);
      FieldWithin(fields, i);
  }

  lemma {:induction false} WalkWithin(v: Json, path: seq<string>)
    requires Walk(v, path).Some?
    ensures AllRefs(Walk(v, path).value) <= AllRefs(v)
    decreases |path|
  {
    if path != [] {
      MemberWithin(v, path[0]);
      WalkWithin(Member(v, path[0]).value, path[1..]);
    }
  }

  /** Every target is a part of the root. */
  lemma TargetWithin(root: Json, ref: string)
    requires ResolveReference(root, ref).Ok?
    ensures AllRefs(ResolveReference(root, ref).value) <= AllRefs(root)
  {
    var namespace := RelativeReferenceToNamespace(ref).value;
    ResolveSucceeds(root, namespace, ResolveReference(root, ref).value);
    WalkWithin(root, namespace);
  }

  lemma StringRefWithin(node: Json)
    requires StringRef(node).Some?
    ensures StringRef(node).value in AllRefs(node)
  {
    var fields := node.fields;
    var i :| 0 <= i < |fields| && fields[i] == ("$ref", JStr(StringRef(node).value));
    FieldWithin(fields, i);
  }

  lemma FieldsSplit(fields: seq<(string, Json)>)
    requires fields != []
    ensures FieldsRefs(fields[1..]) <= FieldsRefs(fields)
    ensures AllRefs(fields[0].1) <= FieldsRefs(fields)
    ensures FieldsSize(fields[1..]) < FieldsSize(fields)
    ensures Size(fields[0].1) <= FieldsSize(fields)
  {
    assert MemberSize(fields[0]) == Size(fields[0].1);
  }

  lemma PrefixElems(a: seq<string>, b: seq<string>)
    requires a <= b
    ensures Elems(a) <= Elems(b)
  {
    forall x | x in Elems(a) ensures x in Elems(b) {
      var i :| 0 <= i < |a| && a[i] == x;
      assert b[i] == x;
    }
  }

  /** Recording a reference and walking into its target strictly shrinks the pending set. */
  lemma ExpansionShrinks(root: Json, node: Json, used: seq<string>, target: Json)
    requires StringRef(node).Some? && StringRef(node).value !in used
    requires ResolveReference(root, StringRef(node).value) == Ok(target)
    ensures Pending(root, AllRefs(target), used + [StringRef(node).value]) <
      Pending(root, AllRefs(node), used)
  {
    var ref := StringRef(node).value;
    TargetWithin(root, ref);
    StringRefWithin(node);
    assert Elems(used + [ref]) == Elems(used) + {ref};
    assert ref in Pending(root, AllRefs(node), used);
    assert ref !in Pending(root, AllRefs(target), used + [ref]);
  }

  // ---------------------------------------------------------------------------
  // The collector, as functions

  /** What `collectUsedReferences(root, node, used)` returns, or the error it throws. */
  function Collect(root: Json, node: Json, used: seq<string>): (r: Outcome<seq<string>>)
    ensures r.Ok? ==> used <= r.value
    ensures !IsContainer(node) ==> r == Ok(used)
    decreases Pending(root, AllRefs(node), used), Size(node), 0
  {
    match node
    case JArr(items) => CollectItems(root, items, used)
    case JObj(fields) =>
      var ref := StringRef(node);
      if ref.Some? && ref.value !in used then
        var target :- ResolveReference(root, ref.value);
        ExpansionShrinks(root, node, used, target);
        var expanded :- Collect(root, target, used + [ref.value]);
        PrefixElems(used, expanded);
        CollectFields(root, fields, expanded)
      else
        CollectFields(root, fields, used)
    case _ => Ok(used)
  }

  /** The object case of `Collect` when its string `$ref` is new: record, walk the target, then the keys. */
  lemma CollectExpanding(root: Json, node: Json, used: seq<string>, target: Json)
    requires node.JObj? && StringRef(node).Some? && StringRef(node).value !in used
    requires ResolveReference(root, StringRef(node).value) == Ok(target)
    ensures Collect(root, node, used) ==
      match Collect(root, target, used + [StringRef(node).value])
      case Err(e) => Err(e)
      case Ok(expanded) => CollectFields(root, node.fields, expanded)
  {
  }

  /** The object case of `Collect` when its new string `$ref` does not resolve: that error. */
  lemma CollectStuck(root: Json, node: Json, used: seq<string>)
    requires node.JObj? && StringRef(node).Some? && StringRef(node).value !in used
    requires ResolveReference(root, StringRef(node).value).Err?
    ensures Collect(root, node, used) == Err(ResolveReference(root, StringRef(node).value).error)
  {
  }

  /** The object case of `Collect` when there is no new string `$ref`: only the keys are walked. */
  lemma CollectNotExpanding(root: Json, node: Json, used: seq<string>)
    requires node.JObj? && (StringRef(node).None? || StringRef(node).value in used)
    ensures Collect(root, node, used) == CollectFields(root, node.fields, used)
  {
  }

  /** The `for` loop over the elements of an array. */
  function CollectItems(root: Json, items: seq<Json>, used: seq<string>): (r: Outcome<seq<string>>)
    ensures r.Ok? ==> used <= r.value
    decreases Pending(root, ItemsRefs(items), used), ItemsSize(items), 1
  {
    if items == [] then Ok(used)
    else
      var first :- Collect(root, items[0], used);
      PrefixElems(used, first);
      CollectItems(root, items[1..], first)
  }

  /** The `for` loop over the keys of an object, which skips `$ref`. */
  function CollectFields(root: Json, fields: seq<(string, Json)>, used: seq<string>): (r: Outcome<seq<string>>)
    ensures r.Ok? ==> used <= r.value
    decreases Pending(root, FieldsRefs(fields), used), FieldsSize(fields), 1
  {
    if fields == [] then Ok(used)
    else
      FieldsSplit(fields);
      if fields[0].0 == "$ref" then CollectFields(root, fields[1..], used)
      else
        var first :- Collect(root, fields[0].1, used);
        PrefixElems(used, first);
        CollectFields(root, fields[1..], first)
  }

  /**
   * Discovery order: a new string `$ref` is listed where it is found, the
   * references met in its target follow it, and those met under the node's
   * other keys come after both.
   */
  lemma CollectRecordsWhereFound(root: Json, node: Json, used: seq<string>, target: Json)
    requires node.JObj? && StringRef(node).Some? && StringRef(node).value !in used
    requires ResolveReference(root, StringRef(node).value) == Ok(target)
    requires Collect(root, node, used).Ok?
    ensures Collect(root, target, used + [StringRef(node).value]).Ok?
    ensures used + [StringRef(node).value] <= Collect(root, target, used + [StringRef(node).value]).value
    ensures Collect(root, target, used + [StringRef(node).value]).value <= Collect(root, node, used).value
  {
    CollectExpanding(root, node, used, target);
  }

  // ---------------------------------------------------------------------------
  // Where the walk stops, thrown error or not

  /** The shared list as it stands when a run stops, and the error thrown, if any. */
  datatype Halt = Halt(list: seq<string>, thrown: Option<Error>)

  /** What a stop gives the caller: the list, or the thrown error. */
  function Verdict(h: Halt): Outcome<seq<string>> {
    if h.thrown.Some? then Err(h.thrown.value) else Ok(h.list)
  }

  /**
   * Where `collectUsedReferences(root, node, used)` stops.  A throw leaves in
   * the shared list everything pushed before it; a reference that does not
   * resolve is never pushed, because it is resolved before it is recorded.
   */
  function Run(root: Json, node: Json, used: seq<string>): (h: Halt)
    ensures used <= h.list
    ensures !IsContainer(node) ==> h == Halt(used, None)
    decreases Pending(root, AllRefs(node), used), Size(node), 0
  {
    match node
    case JArr(items) => RunItems(root, items, used)
    case JObj(fields) =>
      var ref := StringRef(node);
      if ref.Some? && ref.value !in used then
        match ResolveReference(root, ref.value)
        case Err(e) => Halt(used, Some(e))
        case Ok(target) =>
          ExpansionShrinks(root, node, used, target);
          var expanded := Run(root, target, used + [ref.value]);
          if expanded.thrown.Some? then expanded
          else
            PrefixElems(used, expanded.list);
            RunFields(root, fields, expanded.list)
      else
        RunFields(root, fields, used)
    case _ => Halt(used, None)
  }

  function RunItems(root: Json, items: seq<Json>, used: seq<string>): (h: Halt)
    ensures used <= h.list
    decreases Pending(root, ItemsRefs(items), used), ItemsSize(items), 1
  {
    if items == [] then Halt(used, None)
    else
      var first := Run(root, items[0], used);
      if first.thrown.Some? then first
      else
        PrefixElems(used, first.list);
        RunItems(root, items[1..], first.list)
  }

  function RunFields(root: Json, fields: seq<(string, Json)>, used: seq<string>): (h: Halt)
    ensures used <= h.list
    decreases Pending(root, FieldsRefs(fields), used), FieldsSize(fields), 1
  {
    if fields == [] then Halt(used, None)
    else
      FieldsSplit(fields);
      if fields[0].0 == "$ref" then RunFields(root, fields[1..], used)
      else
        var first := Run(root, fields[0].1, used);
        if first.thrown.Some? then first
        else
          PrefixElems(used, first.list);
          RunFields(root, fields[1..], first.list)
  }

  /** The object case of `Run` when its string `$ref` is new and resolves: record, walk the target, then the keys. */
  lemma RunExpanding(root: Json, node: Json, used: seq<string>, target: Json)
    requires node.JObj? && StringRef(node).Some? && StringRef(node).value !in used
    requires ResolveReference(root, StringRef(node).value) == Ok(target)
    ensures Run(root, node, used) ==
      var expanded := Run(root, target, used + [StringRef(node).value]);
      if expanded.thrown.Some? then expanded else RunFields(root, node.fields, expanded.list)
  {
  }

  /** Where a run stops agrees with what `Collect` says it returns or throws. */
  lemma {:induction false} RunAgrees(root: Json, node: Json, used: seq<string>)
    ensures Collect(root, node, used) == Verdict(Run(root, node, used))
    decreases Pending(root, AllRefs(node), used), Size(node), 1
  {
    match node
    case JArr(items) =>
      RunItemsAgree(root, items, used);
    case JObj(fields) =>
      RunObjectAgrees(root, node, used);
    case _ =>
  }

  lemma {:induction false} RunObjectAgrees(root: Json, node: Json, used: seq<string>)
    requires node.JObj?
    ensures Collect(root, node, used) == Verdict(Run(root, node, used))
    decreases Pending(root, AllRefs(node), used), Size(node), 0
  {
    var ref := StringRef(node);
    if ref.Some? && ref.value !in used {
      match ResolveReference(root, ref.value)
      case Err(e) =>
        CollectStuck(root, node, used);
      case Ok(target) =>
        ExpansionShrinks(root, node, used, target);
        CollectExpanding(root, node, used, target);
        RunExpanding(root, node, used, target);
        RunAgrees(root, target, used + [ref.value]);
        var expanded := Run(root, target, used + [ref.value]);
        if expanded.thrown.None? {
          PrefixElems(used, expanded.list);
          RunFieldsAgree(root, node.fields, expanded.list);
        }
    } else {
      CollectNotExpanding(root, node, used);
      RunFieldsAgree(root, node.fields, used);
    }
  }

  lemma {:induction false} RunItemsAgree(root: Json, items: seq<Json>, used: seq<string>)
    ensures CollectItems(root, items, used) == Verdict(RunItems(root, items, used))
    decreases Pending(root, ItemsRefs(items), used), ItemsSize(items), 2
  {
    if items != [] {
      RunAgrees(root, items[0], used);
      var first := Run(root, items[0], used);
      if first.thrown.None? {
        PrefixElems(used, first.list);
        RunItemsAgree(root, items[1..], first.list);
      }
    }
  }

  lemma {:induction false} RunFieldsAgree(root: Json, fields: seq<(string, Json)>, used: seq<string>)
    ensures CollectFields(root, fields, used) == Verdict(RunFields(root, fields, used))
    decreases Pending(root, FieldsRefs(fields), used), FieldsSize(fields), 2
  {
    if fields != [] {
      FieldsSplit(fields);
      if fields[0].0 == "$ref" {
        RunFieldsAgree(root, fields[1..], used);
      } else {
        RunAgrees(root, fields[0].1, used);
        var first := Run(root, fields[0].1, used);
        if first.thrown.None? {
          PrefixElems(used, first.list);
          RunFieldsAgree(root, fields[1..], first.list);
        }
      }
    }
  }

  // ---------------------------------------------------------------------------
  // The collector, as the source runs it

  /** The `usedReferences` array, which every recursive call shares and pushes onto. */
  class ReferenceList {
    var items: seq<string>

    constructor ()
      ensures items == []
    {
      items := [];
    }

    method Push(ref: string)
      modifies this
      ensures items == old(items) + [ref]
    {
      items := items + [ref];
    }
  }

  /** How a run of the collector ends, against what the functions above say it returns. */
  ghost predicate Finished(outcome: Outcome<seq<string>>, used: ReferenceList, failure: Option<Error>)
    reads used
  {
    match outcome
    case Ok(result) => failure.None? && used.items == result
    case Err(e) => failure == Some(e)
  }

  /**
   * `collectUsedReferences(root, node, used)`.  The source returns the array it
   * was given; here the list itself is the result, and `failure` is the error
   * the source throws, if any.
   */
  method CollectUsedReferences(root: Json, node: Json, used: ReferenceList) returns (failure: Option<Error>)
    modifies used
    ensures Halt(used.items, failure) == Run(root, node, old(used.items))
    ensures Finished(Collect(root, node, old(used.items)), used, failure)
    decreases Pending(root, AllRefs(node), used.items), Size(node), 2
  {
    match node {
      case JArr(_) =>
        failure := CollectArray(root, node, used);
      case JObj(_) =>
        failure := CollectObject(root, node, used);
      case _ =>
        failure := None;
    }
    RunAgrees(root, node, old(used.items));
  }

  /** The array branch: one recursive call per element, in order. */
  method CollectArray(root: Json, node: Json, used: ReferenceList) returns (failure: Option<Error>)
    requires node.JArr?
    modifies used
    ensures Halt(used.items, failure) == Run(root, node, old(used.items))
    decreases Pending(root, AllRefs(node), used.items), Size(node), 1
  {
    var items := node.items;
    for i := 0 to |items|
      invariant old(used.items) <= used.items
      invariant RunItems(root, items[i..], used.items) == Run(root, node, old(used.items))
    {
      assert items[i..][1..] == items[i + 1..];
      ItemWithin(items, i);
      PrefixElems(old(used.items), used.items);
      failure := CollectUsedReferences(root, items[i], used);
      if failure.Some? {
        return;
      }
    }
    failure := None;
  }

  /**
   * The first half of the object branch: a string `$ref` not yet recorded is
   * resolved, recorded and walked into.  Afterwards only the keys remain.
   */
  method ExpandReference(root: Json, node: Json, used: ReferenceList) returns (failure: Option<Error>)
    requires node.JObj?
    modifies used
    ensures old(used.items) <= used.items
    ensures failure.Some? ==> Halt(used.items, failure) == Run(root, node, old(used.items))
    ensures failure.None? ==> RunFields(root, node.fields, used.items) == Run(root, node, old(used.items))
    decreases Pending(root, AllRefs(node), used.items), Size(node), 0
  {
    var ref := StringRef(node);
    if ref.Some? && ref.value !in used.items {
      var namespace := RelativeReferenceToNamespace(ref.value);
      if namespace.Err? {
        return Some(namespace.error);
      }
      var target := ResolveNamespace(root, namespace.value);
      if target.Err? {
        return Some(target.error);
      }
      ExpansionShrinks(root, node, used.items, target.value);
      used.Push(ref.value);
      failure := CollectUsedReferences(root, target.value, used);
      return;
    }
    failure := None;
  }

  /**
   * The object branch: a string `$ref` not yet recorded is resolved, recorded and
   * walked into first; then every other key's value is walked, in key order.
   */
  method CollectObject(root: Json, node: Json, used: ReferenceList) returns (failure: Option<Error>)
    requires node.JObj?
    modifies used
    ensures Halt(used.items, failure) == Run(root, node, old(used.items))
    decreases Pending(root, AllRefs(node), used.items), Size(node), 1
  {
    var fields := node.fields;
    failure := ExpandReference(root, node, used);
    if failure.Some? {
      return;
    }
    assert fields[0..] == fields;
    for i := 0 to |fields|
      invariant old(used.items) <= used.items
      invariant RunFields(root, fields[i..], used.items) == Run(root, node, old(used.items))
    {
      assert fields[i..][1..] == fields[i + 1..];
      FieldsSplit(fields[i..]);
      if fields[i].0 == "$ref" {
        continue;
      }
      FieldWithin(fields, i);
      PrefixElems(old(used.items), used.items);
      failure := CollectUsedReferences(root, fields[i].1, used);
      if failure.Some? {
        return;
      }
    }
    failure := None;
  }
}
