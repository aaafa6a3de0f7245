/** `pipe(...fns)(...args)`: the argument list, as one array, passed through
    the functions from left to right. */
module Pipe {

  import opened JsValue

  /** `fns.reduce((v, f) => f(v), v)`, as a fold from the right end: the
      last function applies to what the others made of `v`. */
  function Fold(fns: seq<Value -> Value>, v: Value): (r: Value)
    ensures fns == [] ==> r == v
  {
    if fns == [] then v else fns[|fns| - 1](Fold(fns[..|fns| - 1], v))
  }

  /** `pipe(...fns)(...args)`: the reduction starts from the array of all
      the arguments. */
  function Run(fns: seq<Value -> Value>, args: seq<Value>): (r: Value)
    ensures fns == [] ==> r == Arr(args)
  {
    Fold(fns, Arr(args))
  }

  /** Piping through `a` and then through `b` is piping through `a + b`. */
  lemma {:induction false} FoldAppend(a: seq<Value -> Value>, b: seq<Value -> Value>, v: Value)
    ensures Fold(a + b, v) == Fold(b, Fold(a, v))
    decreases |b|
  {
    if b == [] {
      assert a + b == a;
    } else {
      var b' := b[..|b| - 1];
      assert (a + b)[..|a + b| - 1] == a + b';
      FoldAppend(a, b', v);
    }
  }

  /** The functions apply from left to right: the first one receives the
      starting value, the rest receive its result. */
  lemma FoldFirst(f: Value -> Value, rest: seq<Value -> Value>, v: Value)
    ensures Fold([f] + rest, v) == Fold(rest, f(v))
  {
    FoldAppend([f], rest, v);
    assert Fold([f], v) == f(Fold([], v));
  }

  /** The first function of a pipe receives the whole argument list as one
      array, and the rest of the pipe continues from its result. */
  lemma RunFirst(f: Value -> Value, rest: seq<Value -> Value>, args: seq<Value>)
    ensures Run([f] + rest, args) == Fold(rest, f(Arr(args)))
  {
    FoldFirst(f, rest, Arr(args));
  }

  /** `pipe(f1, …, fn)(x) == fn(pipe(f1, …, fn-1)(x))` */
  lemma RunLast(fns: seq<Value -> Value>, f: Value -> Value, args: seq<Value>)
    ensures Run(fns + [f], args) == f(Run(fns, args))
  {
    FoldAppend(fns, [f], Arr(args));
    assert Fold([f], Run(fns, args)) == f(Fold([], Run(fns, args)));
  }

  /** A pipe of two pipes is the pipe of all their functions; the second
      continues from the first one's result rather than from an array of it. */
  lemma RunCompose(a: seq<Value -> Value>, b: seq<Value -> Value>, args: seq<Value>)
    ensures Run(a + b, args) == Fold(b, Run(a, args))
  {
    FoldAppend(a, b, Arr(args));
  }
}
