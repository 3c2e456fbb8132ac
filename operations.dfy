/**
 * `pathItemToOperationMap`: the operations of a path item, keyed by their HTTP
 * method, in the fixed order of `PATH_ITEM_METHODS`.
 */
module Operations {
  import opened Wrappers
  import opened Json

  /** `PATH_ITEM_METHODS`: the keys of a Path Item Object that hold an Operation Object. */
  const PathItemMethods: seq<string> :=
    ["get", "put", "post", "delete", "options", "head", "patch", "trace"]

  /** `method in pathItem && pathItem[method]`. */
  predicate HasOperation(pathItem: Json, method_: string) {
    Member(pathItem, method_).Some? && !Falsy(Member(pathItem, method_).value)
  }

  /** The methods of `methods`, in their order, for which the path item has an operation. */
  ghost function PresentMethods(pathItem: Json, methods: seq<string>): seq<string>
    decreases |methods|
  {
    if methods == [] then []
    else
      var last := methods[|methods| - 1];
      PresentMethods(pathItem, methods[..|methods| - 1]) +
        (if HasOperation(pathItem, last) then [last] else [])
  }

  /** Exactly the listed methods with an operation are present, in the listed order. */
  lemma {:induction false} PresentMethodsAre(pathItem: Json, methods: seq<string>)
    ensures forall m :: m in PresentMethods(pathItem, methods) <==> m in methods && HasOperation(pathItem, m)
    ensures IsSubsequence(PresentMethods(pathItem, methods), methods)
    decreases |methods|
  {
    if methods != [] {
      var init := methods[..|methods| - 1];
      PresentMethodsAre(pathItem, init);
      assert methods == init + [methods[|methods| - 1]];
      var present := PresentMethods(pathItem, methods);
      if HasOperation(pathItem, methods[|methods| - 1]) {
        assert present == PresentMethods(pathItem, init) + [methods[|methods| - 1]];
        assert present != [] && present[|present| - 1] == methods[|methods| - 1];
        assert present[..|present| - 1] == PresentMethods(pathItem, init);
      } else {
        assert present == PresentMethods(pathItem, init);
      }
    }
  }

  /** One more method of the list adds itself exactly when the path item has an operation for it. */
  lemma PresentMethodsStep(pathItem: Json, methods: seq<string>, i: nat)
    requires i < |methods|
    ensures PresentMethods(pathItem, methods[..i + 1]) ==
      PresentMethods(pathItem, methods[..i]) + (if HasOperation(pathItem, methods[i]) then [methods[i]] else [])
  {
    assert methods[..i + 1][..i] == methods[..i];
  }

  /** The keys of a longer list of members. */
  lemma KeysSnoc(fields: seq<(string, Json)>, member: (string, Json))
    ensures Keys(fields + [member]) == Keys(fields) + [member.0]
  {
  }

  /**
   * The loop of `pathItemToOperationMap`, over any list of methods.  The path
   * item is an object (its declared type), or an array: on null or a primitive
   * `method in pathItem` throws a TypeError.
   */
  method OperationsOf(pathItem: Json, methods: seq<string>) returns (operationMap: seq<(string, Json)>)
    requires IsContainer(pathItem)
    ensures Keys(operationMap) == PresentMethods(pathItem, methods)
    ensures forall i :: 0 <= i < |operationMap| ==>
      Member(pathItem, operationMap[i].0) == Some(operationMap[i].1)
  {
    operationMap := [];
    for i := 0 to |methods|
      invariant Keys(operationMap) == PresentMethods(pathItem, methods[..i])
      invariant forall j :: 0 <= j < |operationMap| ==>
        Member(pathItem, operationMap[j].0) == Some(operationMap[j].1)
    {
      var method_ := methods[i];
      PresentMethodsStep(pathItem, methods, i);
      var operation := Member(pathItem, method_);
      if operation.Some? && !Falsy(operation.value) {
        KeysSnoc(operationMap, (method_, operation.value));
        operationMap := operationMap + [(method_, operation.value)];
      }
    }
    assert methods[..|methods|] == methods;
  }

  method PathItemToOperationMap(pathItem: Json) returns (operationMap: seq<(string, Json)>)
    requires IsContainer(pathItem)
    ensures Keys(operationMap) == PresentMethods(pathItem, PathItemMethods)
    ensures forall i :: 0 <= i < |operationMap| ==>
      Member(pathItem, operationMap[i].0) == Some(operationMap[i].1)
  {
    operationMap := OperationsOf(pathItem, PathItemMethods);
  }

  /** Every key of an operation map is one of the methods, holding a truthy value. */
  lemma OperationMapSound(pathItem: Json, methods: seq<string>, operationMap: seq<(string, Json)>)
    requires Keys(operationMap) == PresentMethods(pathItem, methods)
    requires forall i :: 0 <= i < |operationMap| ==>
      Member(pathItem, operationMap[i].0) == Some(operationMap[i].1)
    ensures forall i :: 0 <= i < |operationMap| ==>
      operationMap[i].0 in methods && !Falsy(operationMap[i].1)
    ensures IsSubsequence(Keys(operationMap), methods)
  {
    var keys := Keys(operationMap);
    PresentMethodsAre(pathItem, methods);
    forall i | 0 <= i < |operationMap|
      ensures operationMap[i].0 in methods && !Falsy(operationMap[i].1)
    {
      var m := keys[i];
      assert m in PresentMethods(pathItem, methods);
      assert HasOperation(pathItem, m);
    }
  }

  /** Every method the path item has an operation for is a key of the operation map. */
  lemma OperationMapComplete(pathItem: Json, methods: seq<string>, operationMap: seq<(string, Json)>, m: string)
    requires Keys(operationMap) == PresentMethods(pathItem, methods)
    requires forall i :: 0 <= i < |operationMap| ==>
      Member(pathItem, operationMap[i].0) == Some(operationMap[i].1)
    requires m in methods && HasOperation(pathItem, m)
    ensures exists i :: 0 <= i < |operationMap| && operationMap[i] == (m, Member(pathItem, m).value)
  {
    PresentMethodsAre(pathItem, methods);
    var i := KeyIndex(operationMap, m);
    assert Member(pathItem, m) == Some(operationMap[i].1);
  }
}
