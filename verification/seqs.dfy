/** Order-preserving sequence combinators: the "loop over a node list,
    push what survives" pattern of the source, and flattening. */
module Seqs {
  import opened Fallible

  /** Keep `f(x)` for every `x` on which `f` succeeds, in order. */
  function FilterMap<A, B>(f: A -> Option<B>, xs: seq<A>): (ys: seq<B>)
    ensures |ys| <= |xs|
  {
    if |xs| == 0 then []
    else
      Head(f(xs[0])) + FilterMap(f, xs[1..])
  }

  /** The image of the first element, as a list of at most one element. */
  function Head<B>(o: Option<B>): seq<B> {
    match o
    case Some(y) => [y]
    case None => []
  }

  lemma AppendAssoc<T>(a: seq<T>, b: seq<T>, c: seq<T>)
    ensures (a + b) + c == a + (b + c)
  {
  }

  lemma FilterMapCons<A, B>(f: A -> Option<B>, xs: seq<A>)
    requires |xs| > 0
    ensures FilterMap(f, xs) == Head(f(xs[0])) + FilterMap(f, xs[1..])
  {
  }

  /** Filtering distributes over concatenation, so the output keeps the
      order of the input. */
  lemma {:induction false} FilterMapAppend<A, B>(f: A -> Option<B>, xs: seq<A>, ys: seq<A>)
    ensures FilterMap(f, xs + ys) == FilterMap(f, xs) + FilterMap(f, ys)
    decreases |xs|
  {
    if |xs| == 0 {
      assert xs + ys == ys;
    } else {
      assert (xs + ys)[1..] == xs[1..] + ys;
      FilterMapAppend(f, xs[1..], ys);
    }
  }

  /** An output element is exactly the image of some input on which `f`
      succeeds. */
  lemma {:induction false} FilterMapMember<A, B>(f: A -> Option<B>, xs: seq<A>, y: B)
    ensures y in FilterMap(f, xs) <==> exists i | 0 <= i < |xs| :: f(xs[i]) == Some(y)
    decreases |xs|
  {
    if |xs| > 0 {
      FilterMapMember(f, xs[1..], y);
      if exists i | 0 <= i < |xs| :: f(xs[i]) == Some(y) {
        var i :| 0 <= i < |xs| && f(xs[i]) == Some(y);
        if i > 0 {
          assert f(xs[1..][i - 1]) == Some(y);
        }
      }
      if exists i | 0 <= i < |xs| - 1 :: f(xs[1..][i]) == Some(y) {
        var i :| 0 <= i < |xs| - 1 && f(xs[1..][i]) == Some(y);
        assert f(xs[i + 1]) == Some(y);
      }
    }
  }

  /** When `f` succeeds everywhere, nothing is dropped and the i-th output
      is the image of the i-th input. */
  lemma {:induction false} FilterMapTotal<A, B>(f: A -> Option<B>, xs: seq<A>)
    requires forall i | 0 <= i < |xs| :: f(xs[i]).Some?
    ensures |FilterMap(f, xs)| == |xs|
    ensures forall i | 0 <= i < |xs| :: FilterMap(f, xs)[i] == f(xs[i]).value
    decreases |xs|
  {
    if |xs| > 0 {
      assert forall i | 0 <= i < |xs| - 1 :: f(xs[1..][i]) == f(xs[i + 1]);
      FilterMapTotal(f, xs[1..]);
    }
  }

  /** Apply `g` to the value of an option. */
  function Bind<B, C>(o: Option<B>, g: B -> Option<C>): Option<C> {
    match o
    case None => None
    case Some(y) => g(y)
  }

  /** Two filters in a row are one filter by the composed step. */
  lemma {:induction false} FilterMapCompose<A, B, C>(f: A -> Option<B>, g: B -> Option<C>, h: A -> Option<C>, xs: seq<A>)
    requires forall i | 0 <= i < |xs| :: h(xs[i]) == Bind(f(xs[i]), g)
    ensures FilterMap(g, FilterMap(f, xs)) == FilterMap(h, xs)
    decreases |xs|
  {
    if |xs| > 0 {
      assert forall i | 0 <= i < |xs| - 1 :: xs[1..][i] == xs[i + 1];
      FilterMapCompose(f, g, h, xs[1..]);
      FilterMapAppend(g, Head(f(xs[0])), FilterMap(f, xs[1..]));
      assert FilterMap(g, Head(f(xs[0]))) == Head(h(xs[0]));
    }
  }

  /** Flatten a sequence of sequences in order. */
  function Concat<T>(xss: seq<seq<T>>): (r: seq<T>)
  {
    if |xss| == 0 then [] else xss[0] + Concat(xss[1..])
  }

  lemma {:induction false} ConcatAppend<T>(a: seq<seq<T>>, b: seq<seq<T>>)
    ensures Concat(a + b) == Concat(a) + Concat(b)
    decreases |a|
  {
    if |a| == 0 {
      assert a + b == b;
    } else {
      assert (a + b)[1..] == a[1..] + b;
      ConcatAppend(a[1..], b);
    }
  }
}
