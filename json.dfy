/**
 * JSON values as the engine sees them once a document is parsed.
 *
 * An object is the sequence of its members in enumeration (`Object.keys`)
 * order.  Reading a key (`o[k]`, `k in o`) finds the first member with that
 * key; an array is read with the canonical decimal strings of its indices,
 * which is what `"1" in a` and `a["1"]` do in the source language.
 */
module Json {
  import opened Wrappers

  datatype Json =
    | JNull
    | JBool(b: bool)
    | JNum(n: int)
    | JStr(s: string)
    | JArr(items: seq<Json>)
    | JObj(fields: seq<(string, Json)>)

  /** `typeof v === "object" && v !== null`: the values a key can be applied to. */
  predicate IsContainer(v: Json) {
    v.JArr? || v.JObj?
  }

  /** The JSON values that are falsy in the source language. */
  predicate Falsy(v: Json) {
    match v
    case JNull => true
    case JBool(b) => !b
    case JNum(n) => n == 0
    case JStr(s) => s == ""
    case _ => false
  }

  /** The value of the first member of `fields` whose key is `key`. */
  function Lookup(fields: seq<(string, Json)>, key: string): (r: Option<Json>)
    ensures r.None? <==> forall i :: 0 <= i < |fields| ==> fields[i].0 != key
    ensures r.Some? ==>
      exists i :: 0 <= i < |fields| && fields[i] == (key, r.value) &&
        forall j :: 0 <= j < i ==> fields[j].0 != key
  {
    if fields == [] then None
    else if fields[0].0 == key then Some(fields[0].1)
    else
      var r := Lookup(fields[1..], key);
      assert r.Some? ==> exists i :: (0 < i < |fields| && fields[i] == (key, r.value) &&
        forall j :: 0 <= j < i ==> fields[j].0 != key)
      by {
        if r.Some? {
          var i :| 0 <= i < |fields[1..]| && fields[1..][i] == (key, r.value) &&
            forall j :: 0 <= j < i ==> fields[1..][j].0 != key;
          assert forall j :: 1 <= j < i + 1 ==> fields[j].0 == fields[1..][j - 1].0;
        }
      }
      r
  }

  /** A member added last is found only for a key no earlier member has. */
  lemma {:induction false} LookupSnoc(fields: seq<(string, Json)>, member: (string, Json), key: string)
    ensures Lookup(fields + [member], key) ==
      if Lookup(fields, key).Some? then Lookup(fields, key)
      else if member.0 == key then Some(member.1)
      else None
  {
    if fields != [] {
      assert (fields + [member])[1..] == fields[1..] + [member];
      LookupSnoc(fields[1..], member, key);
    }
  }

  lemma LookupAppend(fields: seq<(string, Json)>, member: (string, Json))
    ensures forall key :: (Lookup(fields + [member], key) ==
      if Lookup(fields, key).Some? then Lookup(fields, key)
      else if member.0 == key then Some(member.1)
      else None)
  {
    forall key {
      LookupSnoc(fields, member, key);
    }
  }

  /** The keys of an object, in enumeration order. */
  function Keys(fields: seq<(string, Json)>): (keys: seq<string>)
    ensures |keys| == |fields|
    ensures forall i :: 0 <= i < |fields| ==> keys[i] == fields[i].0
  {
    if fields == [] then [] else [fields[0].0] + Keys(fields[1..])
  }

  /** Where a key of a list of members sits. */
  lemma KeyIndex(fields: seq<(string, Json)>, key: string) returns (i: nat)
    requires key in Keys(fields)
    ensures i < |fields| && fields[i].0 == key
  {
    var keys := Keys(fields);
    i :| i < |keys| && keys[i] == key;
  }

  /** `a` is `b` with some elements left out, the rest in their order. */
  ghost predicate IsSubsequence<T>(a: seq<T>, b: seq<T>)
    decreases |b|
  {
    if b == [] then a == []
    else
      || (a != [] && a[|a| - 1] == b[|b| - 1] && IsSubsequence(a[..|a| - 1], b[..|b| - 1]))
      || IsSubsequence(a, b[..|b| - 1])
  }

  // ---------------------------------------------------------------------------
  // Array indices as property keys

  predicate IsDigit(c: char) {
    '0' <= c <= '9'
  }

  function Digit(d: nat): (c: char)
    requires d < 10
    ensures IsDigit(c) && DigitValue(c) == d
  {
    ('0' as int + d) as char
  }

  /** The decimal string of `n`, the key under which an array stores element `n`. */
  function IndexKey(n: nat): (s: string)
    decreases n
  {
    if n < 10 then [Digit(n)] else IndexKey(n / 10) + [Digit(n % 10)]
  }

  function DigitValue(c: char): nat
    requires IsDigit(c)
  {
    c as int - '0' as int
  }

  function DigitsValue(s: string): nat
    requires forall i :: 0 <= i < |s| ==> IsDigit(s[i])
  {
    if s == [] then 0 else 10 * DigitsValue(s[..|s| - 1]) + DigitValue(s[|s| - 1])
  }

  /** A canonical array index: digits only, and no leading zero except in "0". */
  predicate IsIndexKey(s: string) {
    && |s| >= 1
    && (forall i :: 0 <= i < |s| ==> IsDigit(s[i]))
    && (|s| == 1 || s[0] != '0')
  }

  function ParseIndex(s: string): (r: Option<nat>)
    ensures r.Some? <==> IsIndexKey(s)
  {
    if IsIndexKey(s) then Some(DigitsValue(s)) else None
  }

  lemma {:induction false} IndexKeyShape(n: nat)
    ensures IsIndexKey(IndexKey(n))
    ensures n >= 1 ==> IndexKey(n)[0] != '0'
    ensures DigitsValue(IndexKey(n)) == n
    decreases n
  {
    if n >= 10 {
      IndexKeyShape(n / 10);
      var p := IndexKey(n / 10);
      assert IndexKey(n)[..|IndexKey(n)| - 1] == p;
    }
  }

  lemma {:induction false} LeadingDigitPositive(s: string)
    requires IsIndexKey(s) && s[0] != '0'
    ensures DigitsValue(s) >= 1
    decreases |s|
  {
    if |s| > 1 {
      var p := s[..|s| - 1];
      assert p[0] == s[0];
      LeadingDigitPositive(p);
    }
  }

  lemma {:induction false} IndexKeyOfValue(s: string)
    requires IsIndexKey(s)
    ensures IndexKey(DigitsValue(s)) == s
    decreases |s|
  {
    if |s| > 1 {
      var p := s[..|s| - 1];
      assert p[0] == s[0];
      LeadingDigitPositive(p);
      IndexKeyOfValue(p);
      assert s == p + [s[|s| - 1]];
    }
  }

  /** Index keys and indices are in one-to-one correspondence. */
  lemma IndexKeyRoundTrip(n: nat, s: string)
    ensures ParseIndex(s) == Some(n) <==> s == IndexKey(n)
  {
    IndexKeyShape(n);
    if ParseIndex(s) == Some(n) {
      IndexKeyOfValue(s);
    }
  }

  /** `name in v` followed by `v[name]`: the value `v` holds under `name`, if any. */
  function Member(v: Json, name: string): (r: Option<Json>)
    ensures r.Some? ==> IsContainer(v)
  {
    match v
    case JObj(fields) => Lookup(fields, name)
    case JArr(items) =>
      (match ParseIndex(name)
       case Some(i) => if i < |items| then Some(items[i]) else None
       case None => None)
    case _ => None
  }

  /** An array holds exactly its elements, each under its index key. */
  lemma ArrayMember(items: seq<Json>, name: string)
    ensures Member(JArr(items), name).Some? <==>
      exists i :: 0 <= i < |items| && name == IndexKey(i)
    ensures forall i :: 0 <= i < |items| && name == IndexKey(i) ==>
      Member(JArr(items), name) == Some(items[i])
  {
    forall i | 0 <= i < |items| && name == IndexKey(i)
      ensures Member(JArr(items), name) == Some(items[i])
    {
      IndexKeyRoundTrip(i, name);
    }
    if Member(JArr(items), name).Some? {
      var i := ParseIndex(name).value;
      IndexKeyRoundTrip(i, name);
    }
  }

  // ---------------------------------------------------------------------------
  // Pointer objects

  /** `"$ref" in v`: `v` is an object carrying a `$ref` key, of any type. */
  predicate IsReference(v: Json) {
    v.JObj? && Lookup(v.fields, "$ref").Some?
  }

  /** The `$ref` of `v` when `v` is an object whose `$ref` is a string. */
  function StringRef(v: Json): (r: Option<string>)
    ensures r.Some? ==> IsReference(v) && Lookup(v.fields, "$ref") == Some(JStr(r.value))
    ensures r.None? ==> !IsReference(v) || !Lookup(v.fields, "$ref").value.JStr?
  {
    if v.JObj? then
      match Lookup(v.fields, "$ref")
      case Some(JStr(s)) => Some(s)
      case _ => None
    else None
  }

  // ---------------------------------------------------------------------------
  // Size, the second component of the collector's termination measure

  function Size(v: Json): (n: nat)
    ensures n >= 1
    decreases v
  {
    match v
    case JArr(items) => 1 + ItemsSize(items)
    case JObj(fields) => 1 + FieldsSize(fields)
    case _ => 1
  }

  function ItemsSize(items: seq<Json>): nat
    decreases items
  {
    if items == [] then 0 else Size(items[0]) + ItemsSize(items[1..])
  }

  function FieldsSize(fields: seq<(string, Json)>): nat
    decreases fields
  {
    if fields == [] then 0 else MemberSize(fields[0]) + FieldsSize(fields[1..])
  }

  function MemberSize(member: (string, Json)): nat
    decreases member
  {
    Size(member.1)
  }
}
