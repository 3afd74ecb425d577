/** Token trees as `proc_macro` represents them: identifiers, punctuation,
    literals and delimited groups, each carrying a span of type `S`. */
module Tokens {
  import opened Spans

  /** `proc_macro::Delimiter`; `NoDelimiter` is its invisible `None` group. */
  datatype Delimiter = Parenthesis | Brace | Bracket | NoDelimiter

  /** Whether a punctuation character is joined to the next one (`=` in `=>`). */
  datatype Spacing = Alone | Joint

  /** `proc_macro::TokenTree`. A token stream is a `seq<TokenTree<S>>`. */
  datatype TokenTree<S> =
    | Ident(name: string, span: S)
    | Punct(ch: char, spacing: Spacing, span: S)
    | Literal(text: string, span: S)
    | Group(delimiter: Delimiter, span: S, stream: seq<TokenTree<S>>)

  /** The tree with every span forgotten: what the tokens say, with their
      kinds, values, delimiters, nesting and order, but not where they are. */
  function Erase<S>(t: TokenTree<S>): TokenTree<()>
  {
    match t
    case Ident(name, _) => Ident(name, ())
    case Punct(ch, spacing, _) => Punct(ch, spacing, ())
    case Literal(text, _) => Literal(text, ())
    case Group(delimiter, _, stream) => Group(delimiter, (), EraseStream(stream))
  }

  function EraseStream<S>(ts: seq<TokenTree<S>>): (r: seq<TokenTree<()>>)
    ensures |r| == |ts|
  {
    seq(|ts|, i requires 0 <= i < |ts| => Erase(ts[i]))
  }

  /** The number of tokens in a tree, counting a group and everything in it. */
  function Count<S>(t: TokenTree<S>): nat
  {
    match t
    case Group(_, _, stream) => 1 + CountStream(stream)
    case _ => 1
  }

  function CountStream<S>(ts: seq<TokenTree<S>>): nat
  {
    if ts == [] then 0 else Count(ts[0]) + CountStream(ts[1..])
  }

  /** The token reached from `t` by the child indices in `path`; the empty
      path names `t` itself. */
  function Subtree<S>(t: TokenTree<S>, path: seq<nat>): Option<TokenTree<S>>
    decreases path
  {
    if path == [] then Some(t)
    else match t
      case Group(_, _, stream) =>
        if path[0] < |stream| then Subtree(stream[path[0]], path[1..]) else None
      case _ => None
  }

  /** The token of a stream at `path`, the first index choosing a top-level
      token. */
  function At<S>(ts: seq<TokenTree<S>>, path: seq<nat>): Option<TokenTree<S>>
  {
    if path == [] || path[0] >= |ts| then None else Subtree(ts[path[0]], path[1..])
  }

  /** Two trees of the same shape are equal once their spans agree at every
      position: the shape and the spans together determine a tree. */
  lemma {:induction false} TreeExtensionality<S>(x: TokenTree<S>, y: TokenTree<S>)
    requires Erase(x) == Erase(y)
    requires forall path :: Subtree(x, path).Some? && Subtree(y, path).Some? ==>
               Subtree(x, path).value.span == Subtree(y, path).value.span
    ensures x == y
    decreases x
  {
    assert Subtree(x, []) == Some(x) && Subtree(y, []) == Some(y);
    if x.Group? {
      var xs, ys := x.stream, y.stream;
      assert |xs| == |EraseStream(xs)| == |EraseStream(ys)| == |ys|;
      forall i | 0 <= i < |xs| ensures xs[i] == ys[i] {
        assert Erase(xs[i]) == EraseStream(xs)[i] == EraseStream(ys)[i] == Erase(ys[i]);
        forall path | Subtree(xs[i], path).Some? && Subtree(ys[i], path).Some?
          ensures Subtree(xs[i], path).value.span == Subtree(ys[i], path).value.span
        {
          var full := [i as nat] + path;
          assert full[0] == i && full[1..] == path;
          assert Subtree(x, full) == Subtree(xs[i], path);
          assert Subtree(y, full) == Subtree(ys[i], path);
        }
        TreeExtensionality(xs[i], ys[i]);
      }
    }
  }

  /** The stream form of `TreeExtensionality`. */
  lemma StreamExtensionality<S>(a: seq<TokenTree<S>>, b: seq<TokenTree<S>>)
    requires EraseStream(a) == EraseStream(b)
    requires forall path :: At(a, path).Some? && At(b, path).Some? ==>
               At(a, path).value.span == At(b, path).value.span
    ensures a == b
  {
    assert |a| == |b|;
    forall i | 0 <= i < |a| ensures a[i] == b[i] {
      assert Erase(a[i]) == EraseStream(a)[i] == EraseStream(b)[i] == Erase(b[i]);
      forall path | Subtree(a[i], path).Some? && Subtree(b[i], path).Some?
        ensures Subtree(a[i], path).value.span == Subtree(b[i], path).value.span
      {
        var full := [i as nat] + path;
        assert full[0] == i && full[1..] == path;
        assert At(a, full) == Subtree(a[i], path);
        assert At(b, full) == Subtree(b[i], path);
      }
      TreeExtensionality(a[i], b[i]);
    }
  }

  /** Forgetting spans does not change the number of tokens. */
  lemma {:induction false} CountErase<S>(t: TokenTree<S>)
    ensures Count(Erase(t)) == Count(t)
    decreases t, 1
  {
    if t.Group? {
      CountStreamErase(t.stream);
    }
  }

  lemma {:induction false} CountStreamErase<S>(ts: seq<TokenTree<S>>)
    ensures CountStream(EraseStream(ts)) == CountStream(ts)
    decreases ts, 0
  {
    if ts != [] {
      var es := EraseStream(ts);
      assert es[0] == Erase(ts[0]);
      assert es[1..] == EraseStream(ts[1..]);
      CountErase(ts[0]);
      CountStreamErase(ts[1..]);
    }
  }

  /** Streams of the same shape hold the same number of tokens. */
  lemma SameShapeSameCount<S>(a: seq<TokenTree<S>>, b: seq<TokenTree<S>>)
    requires EraseStream(a) == EraseStream(b)
    ensures CountStream(a) == CountStream(b)
  {
    CountStreamErase(a);
    CountStreamErase(b);
  }
}
