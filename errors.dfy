/** The engine's error taxonomy: the five codes it throws, each with its payload. */
module Errors {
  import opened Wrappers

  datatype Error =
      /** E_UNSUPPORTED_REF: the reference is not a local `#/` fragment pointer. */
    | UnsupportedRef(ref: string)
      /** E_BAD_REF: the local pointer has an empty segment; carries every segment. */
    | BadRef(ref: string, namespace: seq<string>)
      /** E_BAD_RESOLVE_BASE: a segment is applied to a scalar or to null. */
    | BadResolveBase(namespace: seq<string>, name: string)
      /** E_BAD_RESOLVE_PROP: a segment names a key the current value does not have. */
    | BadResolveProp(namespace: seq<string>, name: string)
      /** E_BAD_RESOLVE_LEAF: the whole walk ends on null. */
    | BadResolveLeaf(namespace: seq<string>)

  type Outcome<T> = Result<T, Error>
}
