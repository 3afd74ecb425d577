# scrub: blaming a macro's errors on its caller

`scrub!` is a procedural macro for use inside other macros. It takes the
token tree of an expansion and rewrites the span of every token that the
enclosing macro generated. The new span shows the token at the enclosing
macro's invocation site, but it still resolves names as the original did.
The compiler then reports a type error in the expansion at the caller's
`b!(A)` instead of inside the macro body. Tokens written directly in source
(for example those substituted for a `$e` argument) keep their spans. The
tokens themselves are not changed, and neither are their nesting and order.

The model has three modules:

- `Spans` (spans.dfy): the compiler's span API as an uninterpreted record
  `SpanApi<S>`, holding `parent`, `locatedAt` and `resolvedAt` over an
  arbitrary span type `S`. It also holds the derivation of the caller's span
  from the call site, with its two panics, and the per-token span rewrite
  `Respan`.
- `Tokens` (tokens.dfy): `TokenTree<S>`, modelled on `proc_macro::TokenTree`
  (identifiers, punctuation with spacing, literals, delimited groups). It
  defines the span-free shape of a tree (`Erase`), token counts, and
  addressing a token at any depth by a path of child indices (`Subtree`,
  `At`). It proves that shape plus spans at every position determine a tree.
- `ScrubMacro` (scrub.dfy): the walk itself (`ScrubTree`, `ScrubStream`),
  the macro entry point `Scrub`, and the properties of the walk.

`Span::call_site()` is a parameter `callSite` of `Scrub`. The source calls
`scrub` again for each group's contents, and that call computes
`Span::call_site()` once more. Within one macro invocation the call site is
the same value, so the model derives the caller once and passes it down.
`ScrubGroup` proves that this is the same as calling the macro again on the
group's contents: that call succeeds and returns exactly the rebuilt group's
contents.

## Model

| member | source | states |
|---|---|---|
| Spans.CallerSpan | src/lib.rs:48-52 | the caller is the call site's grandparent span; it fails exactly when there is no grandparent. It panics with the `unwrap` message when the call site has no parent, and with "called outside macro" when that parent has no parent |
| ScrubMacro.Scrub | src/lib.rs:47-68 | fails exactly when the call site has no grandparent, with the panic of the caller derivation. Otherwise it returns as many tokens as the body, of the same span-free shape, and an empty body gives an empty stream. At every position and depth, the output span is the input span rewritten with the call site's grandparent as caller |
| Spans.Respan | src/lib.rs:55-57 | the new span of one token: unchanged when its span has no parent; `resolvedAt(locatedAt(p, caller), original)` when the parent is `p` |
| ScrubMacro.ScrubTree | src/lib.rs:54-65 | one token of the walk: its span is the rewritten span, it is a group exactly when the input is, a group keeps its delimiter and number of children, and any other token keeps its kind and value |
| ScrubMacro.ScrubStream | src/lib.rs:53-67 | the output stream has as many top-level tokens as the input |
| ScrubMacro.ScrubTreeShape | src/lib.rs:54-65 | a scrubbed token differs from the original in spans only: same kind, name, character, spacing, literal text, delimiter, and the same children in the same order, recursively |
| ScrubMacro.ScrubStreamShape | src/lib.rs:53-67 | a scrubbed stream has the input's span-free shape at every depth and in the same order |
| ScrubMacro.ScrubPreservesCount | src/lib.rs:58-65 | the total number of tokens, counting group contents at every depth, is unchanged |
| ScrubMacro.ScrubSubtree | src/lib.rs:55-65 | at every path, the output has a token exactly where the input has one. That token is the scrubbed input token at the same path, its span is the input span rewritten as at the top level, and its shape is the input token's |
| ScrubMacro.ScrubAt | src/lib.rs:53-67 | the same for a stream: at every path, the output has a token exactly where the input has one, with the same shape. Its span is unchanged when the input span has no parent, and is `resolvedAt(locatedAt(p, caller), original)` when the parent is `p` |
| ScrubMacro.ScrubCharacterised | src/lib.rs:53-67 | a stream is the scrubbed body if and only if it has the body's shape and, at every position, the body's span rewritten (parent `p` gives `resolvedAt(locatedAt(p, caller), original)`; no parent keeps the span) |
| ScrubMacro.ScrubSourceStream | src/lib.rs:55-57 | a stream in which no token at any depth has a parent span is returned unchanged |
| ScrubMacro.ScrubGroup | src/lib.rs:56-62 | a group keeps its delimiter and gets its own rewritten span, because the rewrite happens before the match. Its contents are what the macro returns when called on the original contents with the same call site, and that call does not fail |

## Left out

- The meaning of `Span::call_site`, `parent`, `located_at` and `resolved_at`. They are provided by the compiler (`parent` only under the nightly `proc_macro_span` feature the crate enables) and are uninterpreted here, so the model assumes no law about them. For this reason it makes no claim that scrubbing twice gives the same result as scrubbing once. Whether that holds depends on what `parent` returns for a span built by `located_at` and `resolved_at`, which the model does not know.
- `Ident`'s raw-identifier flag and the separate open/close spans of a group. `Group::set_span` sets the group's whole span, and the model keeps only that span.
- `TokenStream` iteration and collection, `Group::new` and `set_span` as host objects. They are sequence comprehension and datatype update here.
- A panic is an error result (`Err(Panic(message))`). The model does not cover unwinding.
- The crate documentation and its rendered diagnostic samples (src/lib.rs:3-40) are prose only.
- The `#[scrubbed]` attribute, applied in examples/scrubbed.rs to a `macro_rules!` definition and to `macro` definitions. Its source is not part of this model.
