/** The `scrub!` procedural macro: every token the surrounding macro
    generated is re-pointed at that macro's caller, so diagnostics about the
    expansion blame the invocation rather than the macro body, while the
    tokens themselves, their nesting and their name resolution stay as they
    were. */
module ScrubMacro {
  import opened Spans
  import opened Tokens

  /** One token of the walk: its span is rewritten first, and a group is then
      rebuilt with the same delimiter, the rewritten span and its scrubbed
      contents. */
  function ScrubTree<S>(api: SpanApi<S>, caller: S, t: TokenTree<S>): (r: TokenTree<S>)
    ensures r.span == Respan(api, caller, t.span)
    ensures r.Group? <==> t.Group?
    ensures t.Group? ==> r.delimiter == t.delimiter && |r.stream| == |t.stream|
    ensures !t.Group? ==> Erase(r) == Erase(t)
    decreases t
  {
    var respanned := t.(span := Respan(api, caller, t.span));
    match t
    case Group(delimiter, _, stream) =>
      Group(delimiter, respanned.span, ScrubStream(api, caller, stream))
    case _ => respanned
  }

  /** Every token of a stream, in order, with `caller` already derived. */
  function ScrubStream<S>(api: SpanApi<S>, caller: S, body: seq<TokenTree<S>>): (r: seq<TokenTree<S>>)
    ensures |r| == |body|
    decreases body
  {
    seq(|body|, i requires 0 <= i < |body| => ScrubTree(api, caller, body[i]))
  }

  /** The macro: derive the caller's span from the call site, panicking when
      there is no enclosing macro expansion, then scrub the whole body. */
  function Scrub<S>(api: SpanApi<S>, callSite: S, body: seq<TokenTree<S>>): (r: Result<seq<TokenTree<S>>>)
    ensures r.Err? <==> Ancestor(api, callSite, 2).None?
    ensures r.Err? ==> r == Err(CallerSpan(api, callSite).panic)
    ensures r.Ok? ==> |r.value| == |body| && EraseStream(r.value) == EraseStream(body)
    ensures r.Ok? && body == [] ==> r.value == []
    ensures r.Ok? ==>
              forall path :: At(body, path).Some? ==>
                && At(r.value, path).Some?
                && At(r.value, path).value.span ==
                     Respan(api, Ancestor(api, callSite, 2).value, At(body, path).value.span)
  {
    match CallerSpan(api, callSite)
    case Err(panic) => Err(panic)
    case Ok(caller) =>
      ScrubCharacterised(api, caller, body, ScrubStream(api, caller, body));
      Ok(ScrubStream(api, caller, body))
  }

  /** Scrubbing changes spans only: kinds, identifier names, punctuation and
      its spacing, literals, delimiters, nesting and order are all kept. */
  lemma {:induction false} ScrubTreeShape<S>(api: SpanApi<S>, caller: S, t: TokenTree<S>)
    ensures Erase(ScrubTree(api, caller, t)) == Erase(t)
    decreases t, 1
  {
    if t.Group? {
      ScrubStreamShape(api, caller, t.stream);
    }
  }

  lemma {:induction false} ScrubStreamShape<S>(api: SpanApi<S>, caller: S, body: seq<TokenTree<S>>)
    ensures EraseStream(ScrubStream(api, caller, body)) == EraseStream(body)
    decreases body, 0
  {
    var out := ScrubStream(api, caller, body);
    forall i | 0 <= i < |body| ensures EraseStream(out)[i] == EraseStream(body)[i] {
      ScrubTreeShape(api, caller, body[i]);
    }
  }

  /** The total number of tokens, at every depth, is unchanged. */
  lemma ScrubPreservesCount<S>(api: SpanApi<S>, caller: S, body: seq<TokenTree<S>>)
    ensures CountStream(ScrubStream(api, caller, body)) == CountStream(body)
  {
    ScrubStreamShape(api, caller, body);
    SameShapeSameCount(ScrubStream(api, caller, body), body);
  }

  /** Depth makes no difference: the token at any position of the output is
      the scrubbed token at the same position of the input, and its span is
      the input token's span rewritten exactly as at the top level. */
  lemma {:induction false} ScrubSubtree<S>(api: SpanApi<S>, caller: S, t: TokenTree<S>, path: seq<nat>)
    ensures Subtree(ScrubTree(api, caller, t), path).Some? <==> Subtree(t, path).Some?
    ensures Subtree(t, path).Some? ==>
              && Subtree(ScrubTree(api, caller, t), path).value == ScrubTree(api, caller, Subtree(t, path).value)
              && Subtree(ScrubTree(api, caller, t), path).value.span == Respan(api, caller, Subtree(t, path).value.span)
              && Erase(Subtree(ScrubTree(api, caller, t), path).value) == Erase(Subtree(t, path).value)
    decreases path
  {
    if path == [] {
      ScrubTreeShape(api, caller, t);
    } else if t.Group? && path[0] < |t.stream| {
      ScrubSubtree(api, caller, t.stream[path[0]], path[1..]);
    }
  }

  /** `ScrubSubtree` for a whole stream. */
  lemma ScrubAt<S>(api: SpanApi<S>, caller: S, body: seq<TokenTree<S>>, path: seq<nat>)
    ensures At(ScrubStream(api, caller, body), path).Some? <==> At(body, path).Some?
    ensures At(body, path).Some? ==>
              && At(ScrubStream(api, caller, body), path).value.span == Respan(api, caller, At(body, path).value.span)
              && Erase(At(ScrubStream(api, caller, body), path).value) == Erase(At(body, path).value)
    ensures At(body, path).Some? && api.parent(At(body, path).value.span).None? ==>
              At(ScrubStream(api, caller, body), path).value.span == At(body, path).value.span
    ensures At(body, path).Some? && api.parent(At(body, path).value.span).Some? ==>
              At(ScrubStream(api, caller, body), path).value.span ==
                api.resolvedAt(api.locatedAt(api.parent(At(body, path).value.span).value, caller), At(body, path).value.span)
  {
    if path != [] && path[0] < |body| {
      ScrubSubtree(api, caller, body[path[0]], path[1..]);
    }
  }

  /** The walk is characterised by two facts: the output has the input's
      shape, and the span at every position is the rewritten input span
      there. No other stream satisfies both. */
  lemma ScrubCharacterised<S>(api: SpanApi<S>, caller: S, body: seq<TokenTree<S>>, out: seq<TokenTree<S>>)
    ensures out == ScrubStream(api, caller, body) <==>
              && EraseStream(out) == EraseStream(body)
              && forall path :: At(body, path).Some? ==>
                   At(out, path).Some? && At(out, path).value.span == Respan(api, caller, At(body, path).value.span)
  {
    var scrubbed := ScrubStream(api, caller, body);
    ScrubStreamShape(api, caller, body);
    forall path ensures At(scrubbed, path).Some? <==> At(body, path).Some?
      ensures At(body, path).Some? ==>
                At(scrubbed, path).value.span == Respan(api, caller, At(body, path).value.span)
    {
      ScrubAt(api, caller, body, path);
    }
    if && EraseStream(out) == EraseStream(body)
       && forall path :: At(body, path).Some? ==>
            At(out, path).Some? && At(out, path).value.span == Respan(api, caller, At(body, path).value.span)
    {
      forall path | At(out, path).Some? && At(scrubbed, path).Some?
        ensures At(out, path).value.span == At(scrubbed, path).value.span
      {
      }
      StreamExtensionality(out, scrubbed);
    }
  }

  /** A stream in which no token, at any depth, came from a macro expansion
      is returned exactly as it was. */
  lemma ScrubSourceStream<S>(api: SpanApi<S>, caller: S, body: seq<TokenTree<S>>)
    requires forall path :: At(body, path).Some? ==> api.parent(At(body, path).value.span).None?
    ensures ScrubStream(api, caller, body) == body
  {
    ScrubCharacterised(api, caller, body, body);
  }

  /** A group is rebuilt with its delimiter, its rewritten span, and as
      contents what the macro itself returns for the group's original
      contents: the recursive `scrub` call derives the same caller from the
      same call site and so cannot fail. */
  lemma ScrubGroup<S>(api: SpanApi<S>, callSite: S, caller: S, g: TokenTree<S>)
    requires CallerSpan(api, callSite) == Ok(caller)
    requires g.Group?
    ensures ScrubTree(api, caller, g).Group?
    ensures ScrubTree(api, caller, g).delimiter == g.delimiter
    ensures ScrubTree(api, caller, g).span == Respan(api, caller, g.span)
    ensures Scrub(api, callSite, g.stream) == Ok(ScrubTree(api, caller, g).stream)
  {
  }
}
