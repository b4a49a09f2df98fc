/**
 * Currying and uncurrying with an explicit arity.
 *
 * Python callables are modelled as values of `Obj`: a plain result, an
 * ordinary function of any number of positional arguments, a function of
 * exactly one argument, or the one-argument lambda of a curried function
 * with the arguments gathered so far. A function's result is again an
 * `Obj`, so it may itself be callable. Calling an object is `Call`;
 * applying arguments one at a time, `o(a1)(a2)...(an)`, is `Feed`.
 */
module Curry {
  import opened Wrappers

  /** The exceptions raised: ValueError with its message, and TypeError for a bad call. */
  datatype CurryError = ValueError(message: string) | TypeError

  const NEGATIVE_ARITY := "Arity must be a non-negative integer"

  /**
   * A callable or a result that is not callable. `Lam(g)` takes exactly one
   * argument, as a hand-written `lambda x: ...` does. `Curried(f, arity, args)`
   * is the lambda that takes the next argument after `args` were gathered for `f`.
   */
  datatype Obj<!A> =
    | Val(v: A)
    | Fun(f: seq<A> -> Obj<A>)
    | Lam(g: A -> Obj<A>)
    | Curried(f: seq<A> -> Obj<A>, arity: nat, args: seq<A>)

  /** `inner_curry(args)`: once `arity` arguments are gathered `f` is called, else another lambda waits. */
  function InnerCurry<A>(f: seq<A> -> Obj<A>, arity: nat, args: seq<A>): (o: Obj<A>)
    ensures |args| == arity ==> o == f(args)
    ensures |args| != arity ==> o == Curried(f, arity, args)
  {
    if |args| == arity then f(args) else Curried(f, arity, args)
  }

  /** `curry_explicit(f, arity)`: arity 0 gives `f` back, a negative arity raises ValueError. */
  function CurryExplicit<A>(f: seq<A> -> Obj<A>, arity: int): (r: Result<Obj<A>, CurryError>)
    ensures arity == 0 ==> r == Ok(Fun(f))
    ensures arity < 0 ==> r == Err(ValueError(NEGATIVE_ARITY))
    ensures arity > 0 ==> r == Ok(Curried(f, arity, []))
  {
    if arity == 0 then Ok(Fun(f))
    else if arity < 0 then Err(ValueError(NEGATIVE_ARITY))
    else Ok(InnerCurry(f, arity, []))
  }

  /**
   * Calling an object with positional arguments. A plain result is not
   * callable; a function takes any arguments; a one-argument function and a
   * curried lambda take exactly one.
   */
  function Call<A>(o: Obj<A>, args: seq<A>): Result<Obj<A>, CurryError>
  {
    match o
    case Val(_) => Err(TypeError)
    case Fun(f) => Ok(f(args))
    case Lam(g) => if |args| == 1 then Ok(g(args[0])) else Err(TypeError)
    case Curried(f, arity, gathered) =>
      if |args| == 1 then Ok(InnerCurry(f, arity, gathered + args)) else Err(TypeError)
  }

  /** `o(a1)(a2)...(an)`: one argument per call, left to right; the first failing call raises. */
  function Feed<A>(o: Obj<A>, args: seq<A>): Result<Obj<A>, CurryError>
    decreases |args|
  {
    if args == [] then Ok(o)
    else
      match Call(o, [args[0]])
      case Err(e) => Err(e)
      case Ok(next) => Feed(next, args[1..])
  }

  /**
   * A lambda that has gathered `gathered` and still lacks `rest` (at least
   * one argument) returns `f` of all of them once `rest` is applied.
   */
  lemma {:induction false} FeedCompletes<A>(f: seq<A> -> Obj<A>, arity: nat, gathered: seq<A>, rest: seq<A>)
    requires |rest| > 0 && |gathered| + |rest| == arity
    ensures Feed(Curried(f, arity, gathered), rest) == Ok(f(gathered + rest))
    decreases |rest|
  {
    var next := gathered + [rest[0]];
    assert gathered + rest == next + rest[1..];
    assert Call(Curried(f, arity, gathered), [rest[0]]) == Ok(InnerCurry(f, arity, next));
    if |rest| > 1 {
      FeedCompletes(f, arity, next, rest[1..]);
    } else {
      assert rest[1..] == [] && next == gathered + rest;
    }
  }

  /** Fewer arguments than still lacking leave a lambda with all of them gathered. */
  lemma {:induction false} FeedPartial<A>(f: seq<A> -> Obj<A>, arity: nat, gathered: seq<A>, rest: seq<A>)
    requires |gathered| + |rest| < arity
    ensures Feed(Curried(f, arity, gathered), rest) == Ok(Curried(f, arity, gathered + rest))
    decreases |rest|
  {
    if rest == [] {
      assert gathered + rest == gathered;
    } else {
      var next := gathered + [rest[0]];
      assert gathered + rest == next + rest[1..];
      FeedPartial(f, arity, next, rest[1..]);
    }
  }

  /**
   * Once the missing `k` arguments are gathered, `f` is called and the
   * remaining arguments are applied to its result; when that result is not
   * callable the next call raises TypeError.
   */
  lemma {:induction false} FeedTooMany<A>(f: seq<A> -> Obj<A>, arity: nat, gathered: seq<A>, rest: seq<A>)
    requires |gathered| < arity < |gathered| + |rest|
    ensures var k := arity - |gathered|;
      Feed(Curried(f, arity, gathered), rest) == Feed(f(gathered + rest[..k]), rest[k..])
    ensures var k := arity - |gathered|;
      f(gathered + rest[..k]).Val? ==> Feed(Curried(f, arity, gathered), rest) == Err(TypeError)
    decreases |rest|
  {
    var k := arity - |gathered|;
    var next := gathered + [rest[0]];
    if |next| < arity {
      FeedTooMany(f, arity, next, rest[1..]);
      assert next + rest[1..][..k - 1] == gathered + rest[..k];
      assert rest[1..][k - 1..] == rest[k..];
    } else {
      assert rest[..k] == [rest[0]];
    }
  }

  /**
   * Currying with arity n >= 1 and applying n arguments one at a time gives
   * `f` of those arguments; fewer give a lambda that still waits; more apply
   * the rest to `f`'s result, which raises TypeError when that result is not callable.
   */
  lemma {:induction false} CurryApplied<A>(f: seq<A> -> Obj<A>, n: int, args: seq<A>)
    requires n >= 1
    ensures CurryExplicit(f, n).Ok?
    ensures |args| == n ==> Feed(CurryExplicit(f, n).value, args) == Ok(f(args))
    ensures |args| < n ==> Feed(CurryExplicit(f, n).value, args) == Ok(Curried(f, n, args))
    ensures |args| > n ==> Feed(CurryExplicit(f, n).value, args) == Feed(f(args[..n]), args[n..])
    ensures |args| > n && f(args[..n]).Val? ==> Feed(CurryExplicit(f, n).value, args) == Err(TypeError)
  {
    var c := Curried(f, n, []);
    assert CurryExplicit(f, n) == Ok(c);
    if |args| == n {
      FeedCompletes(f, n, [], args);
      assert [] + args == args;
    } else if |args| < n {
      FeedPartial(f, n, [], args);
      assert [] + args == args;
    } else {
      FeedTooMany(f, n, [], args);
      assert [] + args[..n] == args[..n];
    }
  }

  /**
   * A partial application is a value: applying two different continuations
   * to the same partial gives each its own result.
   */
  lemma {:induction false} PartialReuse<A>(f: seq<A> -> Obj<A>, n: int, first: seq<A>, rest1: seq<A>, rest2: seq<A>)
    requires n >= 1 && |first| < n && |first| + |rest1| == n && |first| + |rest2| == n
    ensures var p := Feed(CurryExplicit(f, n).value, first);
      p.Ok? && Feed(p.value, rest1) == Ok(f(first + rest1)) && Feed(p.value, rest2) == Ok(f(first + rest2))
  {
    CurryApplied(f, n, first);
    FeedCompletes(f, n, first, rest1);
    FeedCompletes(f, n, first, rest2);
  }

  /** The decimal digits of a natural number, as `str` prints it. */
  function NatToString(n: nat): (s: string)
    ensures |s| >= 1 && forall i :: 0 <= i < |s| ==> '0' <= s[i] <= '9'
    ensures n < 10 ==> |s| == 1 && s[0] as int == '0' as int + n
  {
    if n < 10 then [('0' as int + n) as char]
    else NatToString(n / 10) + [('0' as int + n % 10) as char]
  }

  /** The number a string of decimal digits denotes, most significant digit first. */
  function DigitsValue(s: string): int
  {
    if |s| == 0 then 0 else 10 * DigitsValue(s[..|s| - 1]) + (s[|s| - 1] as int - '0' as int)
  }

  /** Reading the digits of `NatToString(n)` back gives `n`. */
  lemma {:induction false} NatToStringValue(n: nat)
    ensures DigitsValue(NatToString(n)) == n
  {
    var s := NatToString(n);
    if n < 10 {
      assert s[..0] == [];
    } else {
      NatToStringValue(n / 10);
      assert s[..|s| - 1] == NatToString(n / 10);
    }
  }

  /** The message of the ValueError for a wrong argument count. */
  function ExpectedMessage(arity: nat, got: nat): string
  {
    "Expected " + NatToString(arity) + " arguments, but got " + NatToString(got)
  }

  /** What `uncurry_explicit` returns: the result of calling with no arguments, or `inner_uncurry`. */
  datatype Uncurrying<!A> = Called(result: Obj<A>) | Uncurried(inner: Obj<A>, arity: nat)

  /**
   * `uncurry_explicit(o, arity)`: a negative arity raises ValueError, arity 0
   * calls `o` with no arguments at once, otherwise the wrapper is returned.
   */
  function UncurryExplicit<A>(o: Obj<A>, arity: int): (r: Result<Uncurrying<A>, CurryError>)
    ensures arity < 0 ==> r == Err(ValueError(NEGATIVE_ARITY))
    ensures arity == 0 ==> match Call(o, []) case Ok(v) => r == Ok(Called(v)) case Err(e) => r == Err(e)
    ensures arity > 0 ==> r == Ok(Uncurried(o, arity))
  {
    if arity < 0 then Err(ValueError(NEGATIVE_ARITY))
    else if arity == 0 then
      match Call(o, [])
      case Ok(v) => Ok(Called(v))
      case Err(e) => Err(e)
    else Ok(Uncurried(o, arity))
  }

  /**
   * `inner_uncurry(*args)`: the argument count must equal the arity; then
   * the arguments are applied one call at a time, left to right.
   */
  method InnerUncurry<A>(inner: Obj<A>, arity: nat, args: seq<A>) returns (r: Result<Obj<A>, CurryError>)
    ensures |args| != arity ==> r == Err(ValueError(ExpectedMessage(arity, |args|)))
    ensures |args| == arity ==> r == Feed(inner, args)
  {
    if |args| != arity {
      return Err(ValueError(ExpectedMessage(arity, |args|)));
    }
    var result := inner;
    var i := 0;
    while i < |args|
      invariant 0 <= i <= |args|
      invariant Feed(inner, args) == Feed(result, args[i..])
    {
      var rest := args[i..];
      assert rest[0] == args[i] && rest[1..] == args[i + 1..];
      var step := Call(result, [args[i]]);
      if step.Err? {
        return Err(step.error);
      }
      result := step.value;
      i := i + 1;
    }
    assert args[i..] == [];
    r := Ok(result);
  }

  /**
   * Round trip: for n >= 1, uncurrying the n-curried `f` with arity n and
   * calling it on n arguments gives `f` of them.
   */
  lemma {:induction false} UncurryCurry<A>(f: seq<A> -> Obj<A>, n: int, args: seq<A>)
    requires n >= 1 && |args| == n
    ensures CurryExplicit(f, n).Ok?
    ensures UncurryExplicit(CurryExplicit(f, n).value, n) == Ok(Uncurried(Curried(f, n, []), n))
    ensures Feed(Curried(f, n, []), args) == Ok(f(args))
  {
    CurryApplied(f, n, args);
  }

  /**
   * A hand-curried function of two arguments, `lambda x: lambda y: h(x, y)`,
   * uncurried with arity 2 and called on two arguments gives `h` of them.
   */
  lemma UncurryHandCurried<A>(h: (A, A) -> A, a: A, b: A)
    ensures var o := Lam((x: A) => Lam((y: A) => Val(h(x, y))));
      UncurryExplicit(o, 2) == Ok(Uncurried(o, 2)) && Feed(o, [a, b]) == Ok(Val(h(a, b)))
  {
    var o := Lam((x: A) => Lam((y: A) => Val(h(x, y))));
    var inner := o.g(a);
    assert inner.Lam? && inner.g(b) == Val(h(a, b));
    assert Call(o, [a]) == Ok(inner);
    assert [a, b][1..] == [b];
    assert Feed(o, [a, b]) == Feed(inner, [b]);
    assert [b][1..] == [];
  }

  /**
   * A curried function whose result is callable takes further arguments:
   * `curry_explicit(lambda x: lambda y: y, 1)(1)(2)` gives 2.
   */
  lemma CurriedResultCallable()
    ensures var f := (args: seq<int>) => Lam((y: int) => Val(y));
      CurryExplicit(f, 1).Ok? && Feed(CurryExplicit(f, 1).value, [1, 2]) == Ok(Val(2))
  {
    var f := (args: seq<int>) => Lam((y: int) => Val(y));
    CurryApplied(f, 1, [1, 2]);
    assert [1, 2][..1] == [1] && [1, 2][1..] == [2];
  }
}
