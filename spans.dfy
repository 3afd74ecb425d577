/** Spans as the compiler's `proc_macro` API hands them out: an opaque span
    type together with the three operations `scrub` uses. Nothing is assumed
    about these operations beyond their signatures. */
module Spans {

  datatype Option<+T> = None | Some(value: T)

  /** The span operations of the host compiler, uninterpreted.
      `parent(s)` is the span of the macro invocation that generated `s`, or
      `None` when `s` was written in source; `locatedAt(a, b)` keeps `a`'s
      hygiene but shows it at `b`'s location; `resolvedAt(a, b)` keeps `a`'s
      location but resolves names as `b` would. */
  datatype SpanApi<!S> = SpanApi(
    parent: S -> Option<S>,
    locatedAt: (S, S) -> S,
    resolvedAt: (S, S) -> S)

  /** A panic of the procedural macro, which aborts the expansion. */
  datatype Panic = Panic(message: string)

  datatype Result<+T> = Ok(value: T) | Err(panic: Panic)

  /** The message `Option::unwrap` panics with on `None`. */
  const UnwrapNoneMessage: string := "called `Option::unwrap()` on a `None` value"

  /** The message of the `expect` on the second `parent()` lookup. */
  const OutsideMacroMessage: string := "called outside macro"

  /** The span `n` expansion levels above `s`, if there are that many. */
  function Ancestor<S>(api: SpanApi<S>, s: S, n: nat): Option<S>
  {
    if n == 0 then Some(s)
    else match Ancestor(api, s, n - 1)
      case None => None
      case Some(a) => api.parent(a)
  }

  /** The span errors are blamed on: the parent of the parent of the
      call-site span, that is, the invocation site of the macro whose
      expansion contains the `scrub!` call. The first lookup panics through
      `unwrap`, the second through `expect("called outside macro")`. */
  function CallerSpan<S>(api: SpanApi<S>, callSite: S): (r: Result<S>)
    ensures r.Ok? <==> Ancestor(api, callSite, 2).Some?
    ensures r.Ok? ==> r.value == Ancestor(api, callSite, 2).value
    ensures Ancestor(api, callSite, 1).None? ==> r == Err(Panic(UnwrapNoneMessage))
    ensures Ancestor(api, callSite, 1).Some? && Ancestor(api, callSite, 2).None? ==>
              r == Err(Panic(OutsideMacroMessage))
  {
    assert Ancestor(api, callSite, 1) == api.parent(callSite);
    match api.parent(callSite)
    case None => Err(Panic(UnwrapNoneMessage))
    case Some(p) =>
      match api.parent(p)
      case None => Err(Panic(OutsideMacroMessage))
      case Some(caller) => Ok(caller)
  }

  /** The new span of one token (the `if let` on the token's parent span):
      a token generated by a macro expansion is shown at `caller` while it
      keeps resolving names as its original span did; a token written in
      source keeps its span. */
  function Respan<S>(api: SpanApi<S>, caller: S, s: S): (r: S)
    ensures api.parent(s).None? ==> r == s
    ensures api.parent(s).Some? ==> r == api.resolvedAt(api.locatedAt(api.parent(s).value, caller), s)
  {
    match api.parent(s)
    case None => s
    case Some(p) => api.resolvedAt(api.locatedAt(p, caller), s)
  }
}
