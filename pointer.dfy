/**
 * The pointer parser: `relativeReferenceToNamespace` turns a local reference
 * `#/a/b/c` into its segments `["a", "b", "c"]`.  Segments are used verbatim:
 * neither the `~0`/`~1` escapes nor percent-encoding of RFC 6901 are decoded.
 */
module Pointer {
  import opened Wrappers
  import opened Errors

  const Separator: char := '/'

  /** `s.split("/")`: the pieces between separators; never an empty list. */
  function Split(s: string): (pieces: seq<string>)
    ensures |pieces| >= 1
    ensures forall i :: 0 <= i < |pieces| ==> Separator !in pieces[i]
  {
    if s == [] then [""]
    else if s[0] == Separator then [""] + Split(s[1..])
    else
      var rest := Split(s[1..]);
      [[s[0]] + rest[0]] + rest[1..]
  }

  /** `pieces.join("/")`. */
  function Join(pieces: seq<string>): string {
    if pieces == [] then ""
    else if |pieces| == 1 then pieces[0]
    else pieces[0] + [Separator] + Join(pieces[1..])
  }

  /** Joining what was split gives back the string. */
  lemma {:induction false} JoinSplit(s: string)
    ensures Join(Split(s)) == s
  {
    if s == [] {
    } else if s[0] == Separator {
      JoinSplit(s[1..]);
      assert s == [Separator] + s[1..];
    } else {
      JoinSplit(s[1..]);
      var rest := Split(s[1..]);
      assert Split(s) == [[s[0]] + rest[0]] + rest[1..];
      if |rest| == 1 {
        assert s == [s[0]] + Join(rest);
      } else {
        assert Join(rest) == rest[0] + [Separator] + Join(rest[1..]);
        assert s == [s[0]] + Join(rest);
        assert ([[s[0]] + rest[0]] + rest[1..])[1..] == rest[1..];
      }
    }
  }

  /** Splitting a separator-free piece followed by a separator peels that piece off. */
  lemma {:induction false} SplitPiece(a: string, b: string)
    requires Separator !in a
    ensures Split(a) == [a]
    ensures Split(a + [Separator] + b) == [a] + Split(b)
  {
    if a != [] {
      SplitPiece(a[1..], b);
      assert (a + [Separator] + b)[1..] == a[1..] + [Separator] + b;
      assert [a[0]] + a[1..] == a;
    } else {
      assert a + [Separator] + b == [Separator] + b;
    }
  }

  /** Splitting what was joined gives back the pieces, when none holds a separator. */
  lemma {:induction false} SplitJoin(pieces: seq<string>)
    requires |pieces| >= 1
    requires forall i :: 0 <= i < |pieces| ==> Separator !in pieces[i]
    ensures Split(Join(pieces)) == pieces
  {
    if |pieces| == 1 {
      SplitPiece(pieces[0], "");
    } else {
      SplitJoin(pieces[1..]);
      SplitPiece(pieces[0], Join(pieces[1..]));
      assert pieces == [pieces[0]] + pieces[1..];
    }
  }

  predicate IsLocal(ref: string) {
    |ref| >= 2 && ref[..2] == "#/"
  }

  /** A namespace a local reference can denote: non-empty segments without separators. */
  predicate IsNamespace(namespace: seq<string>) {
    && |namespace| >= 1
    && (forall i :: 0 <= i < |namespace| ==> namespace[i] != "")
    && (forall i :: 0 <= i < |namespace| ==> Separator !in namespace[i])
  }

  /** The local reference that denotes `namespace`. */
  function Reference(namespace: seq<string>): string {
    "#/" + Join(namespace)
  }

  function RelativeReferenceToNamespace(ref: string): (r: Outcome<seq<string>>)
    ensures r == Err(UnsupportedRef(ref)) <==> !IsLocal(ref)
    ensures r.Err? && IsLocal(ref) ==>
      && r.error == BadRef(ref, Split(ref[2..]))
      && exists i :: 0 <= i < |r.error.namespace| && r.error.namespace[i] == ""
    ensures r.Ok? ==> IsNamespace(r.value) && Reference(r.value) == ref
  {
    if !IsLocal(ref) then Err(UnsupportedRef(ref))
    else
      var namespace := Split(ref[2..]);
      if exists i :: 0 <= i < |namespace| && namespace[i] == "" then Err(BadRef(ref, namespace))
      else
        JoinSplit(ref[2..]);
        assert ref == ref[..2] + ref[2..];
        Ok(namespace)
  }

  /** Parsing is the inverse of `Reference`: the namespaces are exactly the parses. */
  lemma ParseReference(ref: string, namespace: seq<string>)
    ensures RelativeReferenceToNamespace(ref) == Ok(namespace) <==>
      IsNamespace(namespace) && ref == Reference(namespace)
  {
    if IsNamespace(namespace) && ref == Reference(namespace) {
      SplitJoin(namespace);
      assert ref[..2] == "#/" && ref[2..] == Join(namespace);
    }
  }

  /** A reference that is not a local fragment is unsupported. */
  lemma RejectsRemoteReference()
    ensures RelativeReferenceToNamespace("http://example.com/#/a/b")
      == Err(UnsupportedRef("http://example.com/#/a/b"))
  {
    var ref := "http://example.com/#/a/b";
    assert ref[0] == 'h';
    assert !IsLocal(ref);
  }

  /** `#/` alone has one empty segment. */
  lemma RejectsEmptyPointer()
    ensures RelativeReferenceToNamespace("#/") == Err(BadRef("#/", [""]))
  {
    assert "#/"[2..] == "";
  }

  /** An inner `//` makes an empty segment. */
  lemma RejectsDoubleSeparator()
    ensures RelativeReferenceToNamespace("#/a//b") == Err(BadRef("#/a//b", ["a", "", "b"]))
  {
    assert "#/a//b"[2..] == "a//b";
    SplitPiece("a", "/b");
    assert "a//b" == "a" + [Separator] + "/b";
    SplitPiece("", "b");
    assert "/b" == "" + [Separator] + "b";
    SplitPiece("b", "");
    assert Split("a//b") == ["a", "", "b"];
  }

  /** A trailing `/` makes an empty last segment. */
  lemma RejectsTrailingSeparator()
    ensures RelativeReferenceToNamespace("#/a/") == Err(BadRef("#/a/", ["a", ""]))
  {
    assert "#/a/"[2..] == "a/";
    SplitPiece("a", "");
    assert "a/" == "a" + [Separator] + "";
    assert Split("a/") == ["a", ""];
  }
}
