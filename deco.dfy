/** The decorators of `homework_01/deco.py`: `n_ary` turns a binary
    function into a variadic one, `memo` caches results by argument tuple,
    `countcalls` counts the calls made through it; `foo`, `bar` and `fib`
    are built from them. The printing `trace` decorator is not modelled;
    in `fib` it sits between the counter and the cache and only prints. */
module Deco {
  import opened Wrappers

  /** The exception `n_ary`'s wrapper raises on zero arguments. */
  datatype DecoError = ValueError

  // ---------------------------------------------------------------------
  // n_ary

  /** `f(...f(f(acc, xs[0]), xs[1])..., xs[|xs| - 1])`: the `result`
      variable of the wrapper's loop after it has consumed `xs`. */
  function FoldLeft<T>(f: (T, T) -> T, acc: T, xs: seq<T>): T
    decreases |xs|
  {
    if xs == [] then acc else f(FoldLeft(f, acc, xs[..|xs| - 1]), xs[|xs| - 1])
  }

  /** What the `n_ary` wrapper returns or raises for the arguments `args`. */
  function NAry<T>(f: (T, T) -> T, args: seq<T>): Result<T, DecoError> {
    if |args| == 0 then Failure(ValueError)
    else if |args| == 1 then Success(args[0])
    else Success(FoldLeft(f, args[0], args[1..]))
  }

  /** The wrapper itself: `ValueError` on no arguments, the only argument
      unchanged without calling `f`, otherwise the running `result`
      combined with each further argument. `applied` counts the calls of
      `f`. */
  method NAryCall<T>(f: (T, T) -> T, args: seq<T>) returns (r: Result<T, DecoError>, applied: nat)
    ensures r == NAry(f, args)
    ensures r.Failure? <==> args == []
    ensures applied == if |args| <= 1 then 0 else |args| - 1
  {
    if |args| == 0 {
      return Failure(ValueError), 0;
    } else if |args| == 1 {
      return Success(args[0]), 0;
    }
    var result := args[0];
    applied := 0;
    for i := 1 to |args|
      invariant result == FoldLeft(f, args[0], args[1..i])
      invariant applied == i - 1
    {
      assert args[1..i + 1][..i - 1] == args[1..i];
      result := f(result, args[i]);
      applied := applied + 1;
    }
    assert args[1..|args|] == args[1..];
    return Success(result), applied;
  }

  /** The nesting the docstring describes: `f(x, f(y, z))`. */
  function NestRight<T>(f: (T, T) -> T, xs: seq<T>): T
    requires |xs| >= 1
    decreases |xs|
  {
    if |xs| == 1 then xs[0] else f(xs[0], NestRight(f, xs[1..]))
  }

  ghost predicate Associative<T(!new)>(f: (T, T) -> T) {
    forall a, b, c :: f(f(a, b), c) == f(a, f(b, c))
  }

  /** Under associativity the accumulator can be pulled out of the fold. */
  lemma {:induction false} FoldLeftPullOut<T(!new)>(f: (T, T) -> T, a: T, b: T, ys: seq<T>)
    requires Associative(f)
    ensures FoldLeft(f, f(a, b), ys) == f(a, FoldLeft(f, b, ys))
    decreases |ys|
  {
    if ys != [] {
      FoldLeftPullOut(f, a, b, ys[..|ys| - 1]);
    }
  }

  /** The wrapper's left fold equals the docstring's right nesting for an
      associative function. */
  lemma {:induction false} NAryNestsRight<T(!new)>(f: (T, T) -> T, args: seq<T>)
    requires Associative(f) && |args| >= 1
    ensures NAry(f, args) == Success(NestRight(f, args))
    decreases |args|
  {
    if |args| >= 2 {
      var rest := args[1..];
      NAryNestsRight(f, rest);
      if |rest| == 1 {
        assert rest[..0] == [];
        assert FoldLeft(f, args[0], rest) == f(args[0], rest[0]);
        assert NestRight(f, rest) == rest[0];
      } else {
        assert FoldLeft(f, rest[0], rest[1..]) == NestRight(f, rest);
        assert rest == [rest[0]] + rest[1..];
        FoldLeftCons(f, args[0], rest[0], rest[1..]);
        FoldLeftPullOut(f, args[0], rest[0], rest[1..]);
      }
    }
  }

  /** The fold over `[x] + ys` starts with `f(acc, x)`. */
  lemma {:induction false} FoldLeftCons<T>(f: (T, T) -> T, acc: T, x: T, ys: seq<T>)
    ensures FoldLeft(f, acc, [x] + ys) == FoldLeft(f, f(acc, x), ys)
    decreases |ys|
  {
    if ys == [] {
      assert ([x] + ys)[..0] == [];
    } else {
      var zs := [x] + ys;
      assert zs[..|zs| - 1] == [x] + ys[..|ys| - 1];
      FoldLeftCons(f, acc, x, ys[..|ys| - 1]);
    }
  }

  /** Without associativity the two differ: for subtraction the wrapper
      gives `(1 - 2) - 3 == -4`, the docstring's nesting `1 - (2 - 3) == 2`. */
  lemma SubtractionFoldsLeft()
    ensures NAry((a: int, b: int) => a - b, [1, 2, 3]) == Success(-4)
    ensures NestRight((a: int, b: int) => a - b, [1, 2, 3]) == 2
  {
    var sub := (a: int, b: int) => a - b;
    var xs := [1, 2, 3];
    assert xs[1..] == [2, 3];
    assert [2, 3][..1] == [2];
    assert [2][..0] == [];
  }

  // ---------------------------------------------------------------------
  // foo and bar

  function SumOf(xs: seq<int>): int
    decreases |xs|
  {
    if xs == [] then 0 else SumOf(xs[..|xs| - 1]) + xs[|xs| - 1]
  }

  function ProductOf(xs: seq<int>): int
    decreases |xs|
  {
    if xs == [] then 1 else ProductOf(xs[..|xs| - 1]) * xs[|xs| - 1]
  }

  /** The undecorated `foo`, made n-ary. */
  function Foo(args: seq<int>): Result<int, DecoError> {
    NAry((a: int, b: int) => a + b, args)
  }

  /** The undecorated `bar`, made n-ary. */
  function Bar(args: seq<int>): Result<int, DecoError> {
    NAry((a: int, b: int) => a * b, args)
  }

  lemma {:induction false} FoldAdds(acc: int, ys: seq<int>)
    ensures FoldLeft((a: int, b: int) => a + b, acc, ys) == acc + SumOf(ys)
    decreases |ys|
  {
    if ys != [] {
      FoldAdds(acc, ys[..|ys| - 1]);
    }
  }

  lemma {:induction false} FoldMultiplies(acc: int, ys: seq<int>)
    ensures FoldLeft((a: int, b: int) => a * b, acc, ys) == acc * ProductOf(ys)
    decreases |ys|
  {
    if ys != [] {
      FoldMultiplies(acc, ys[..|ys| - 1]);
      var p := ProductOf(ys[..|ys| - 1]);
      assert acc * p * ys[|ys| - 1] == acc * (p * ys[|ys| - 1]);
    }
  }

  /** The first element followed by the rest. */
  lemma SplitFirst(xs: seq<int>)
    requires xs != []
    ensures SumOf(xs) == xs[0] + SumOf(xs[1..])
    ensures ProductOf(xs) == xs[0] * ProductOf(xs[1..])
  {
    FoldAdds(xs[0], xs[1..]);
    FoldMultiplies(xs[0], xs[1..]);
    FoldLeftCons((a: int, b: int) => a + b, 0, xs[0], xs[1..]);
    FoldLeftCons((a: int, b: int) => a * b, 1, xs[0], xs[1..]);
    assert [xs[0]] + xs[1..] == xs;
    FoldAdds(0, xs);
    FoldMultiplies(1, xs);
  }

  /** `foo` adds all its arguments and `bar` multiplies them; both raise
      `ValueError` when called with none. */
  lemma FooSumsBarMultiplies(args: seq<int>)
    ensures args == [] ==> Foo(args) == Failure(ValueError) && Bar(args) == Failure(ValueError)
    ensures args != [] ==> Foo(args) == Success(SumOf(args)) && Bar(args) == Success(ProductOf(args))
  {
    if |args| == 1 {
      assert args[..0] == [];
    } else if |args| >= 2 {
      FoldAdds(args[0], args[1..]);
      FoldMultiplies(args[0], args[1..]);
      SplitFirst(args);
    }
  }

  // ---------------------------------------------------------------------
  // memo and countcalls

  /** `memo(func)`: the wrapper together with its `cache` dictionary,
      keyed by the argument tuple. `func` is pure, so every cached value
      is what `func` returns for its key. */
  class Memo<A(==), V> {
    const func: A -> Result<V, DecoError>
    var cache: map<A, V>

    ghost predicate Valid()
      reads this
    {
      forall a :: a in cache ==> func(a) == Success(cache[a])
    }

    constructor(func: A -> Result<V, DecoError>)
      ensures this.func == func && cache == map[] && Valid()
    {
      this.func := func;
      cache := map[];
    }

    /** A hit returns the stored value without calling `func`; a miss
        calls `func` once and stores its result, unless it raised. */
    method Call(args: A) returns (r: Result<V, DecoError>, hit: bool)
      requires Valid()
      modifies this
      ensures Valid()
      ensures r == func(args)
      ensures hit <==> args in old(cache)
      ensures hit ==> r == Success(old(cache)[args]) && cache == old(cache)
      ensures !hit && r.Success? ==> cache == old(cache)[args := r.value]
      ensures !hit && r.Failure? ==> cache == old(cache)
      ensures forall a :: a in old(cache) ==> a in cache && cache[a] == old(cache)[a]
    {
      if args in cache {
        return Success(cache[args]), true;
      }
      r := func(args);
      if r.Success? {
        cache := cache[args := r.value];
      }
      return r, false;
    }
  }

  /** `countcalls(memo(func))`: `calls` starts at 0 and grows by one per
      call, before the cache is consulted; hits and calls that raise
      count too. */
  class CountCalls<A(==), V> {
    const inner: Memo<A, V>
    var calls: nat

    constructor(inner: Memo<A, V>)
      ensures this.inner == inner && calls == 0
    {
      this.inner := inner;
      calls := 0;
    }

    method Call(args: A) returns (r: Result<V, DecoError>, hit: bool)
      requires inner.Valid()
      modifies this, inner
      ensures inner.Valid()
      ensures calls == old(calls) + 1
      ensures r == inner.func(args)
      ensures hit <==> args in old(inner.cache)
      ensures hit ==> inner.cache == old(inner.cache)
      ensures !hit && r.Success? ==> inner.cache == old(inner.cache)[args := r.value]
      ensures !hit && r.Failure? ==> inner.cache == old(inner.cache)
    {
      calls := calls + 1;
      r, hit := inner.Call(args);
    }
  }

  /** The calls `main` makes on `foo`: `foo(4, 3)`, `foo(4, 3, 2)` and
      `foo(4, 3)` again, the last one from the cache; `foo.calls` is 3. */
  method FooMain() returns (a: Result<int, DecoError>, b: Result<int, DecoError>,
                            c: Result<int, DecoError>, calls: nat)
    ensures a == Success(7) && b == Success(9) && c == Success(7) && calls == 3
  {
    var memo := new Memo(Foo);
    var foo := new CountCalls(memo);
    var hit;
    a, hit := foo.Call([4, 3]);
    b, hit := foo.Call([4, 3, 2]);
    c, hit := foo.Call([4, 3]);
    calls := foo.calls;
  }

  lemma BarValues()
    ensures Bar([4, 3]) == Success(12) && Bar([4, 3, 2]) == Success(24)
    ensures Bar([4, 3, 2, 1]) == Success(24)
  {
    FooSumsBarMultiplies([4, 3]);
    FooSumsBarMultiplies([4, 3, 2]);
    FooSumsBarMultiplies([4, 3, 2, 1]);
    assert [4, 3, 2, 1][..3] == [4, 3, 2];
    assert [4, 3, 2][..2] == [4, 3];
    assert [4, 3][..1] == [4];
    assert [4][..0] == [];
  }

  /** The calls `main` makes on `bar`: `bar(4, 3)`, `bar(4, 3, 2)` and
      `bar(4, 3, 2, 1)`; `bar.calls` is 3. */
  method BarMain() returns (a: Result<int, DecoError>, b: Result<int, DecoError>,
                            c: Result<int, DecoError>, calls: nat)
    ensures a == Success(12) && b == Success(24) && c == Success(24) && calls == 3
  {
    var memo := new Memo(Bar);
    var bar := new CountCalls(memo);
    var hit;
    a, hit := bar.Call([4, 3]);
    b, hit := bar.Call([4, 3, 2]);
    c, hit := bar.Call([4, 3, 2, 1]);
    BarValues();
    calls := bar.calls;
  }

  // ---------------------------------------------------------------------
  // fib

  /** `1 if n <= 1 else fib(n - 1) + fib(n - 2)`. */
  function FibSpec(n: int): int
    decreases if n < 0 then 0 else n
  {
    if n <= 1 then 1 else FibSpec(n - 1) + FibSpec(n - 2)
  }

  /** The keys a fresh cache holds after `fib(n)`. */
  function Reached(n: int): set<int>
    decreases if n < 0 then 0 else n
  {
    if n <= 1 then {n} else if n == 2 then {0, 1, 2} else Reached(n - 1) + {n}
  }

  /** The calls a fresh `fib(n)` counts: the base cases call nothing, and
      from 2 on `fib(n - 1)` fills the cache so that `fib(n - 2)` is a hit. */
  function FreshCalls(n: int): nat {
    if n >= 1 then 2 * n - 1 else 1
  }

  /** `countcalls(trace(memo(fib)))`. The recursive calls go through the
      decorated name, so each of them is counted and looked up in the
      cache. */
  class Fib {
    var cache: map<int, int>
    var calls: nat

    ghost predicate Valid()
      reads this
    {
      forall k :: k in cache ==> cache[k] == FibSpec(k)
    }

    constructor()
      ensures cache == map[] && calls == 0 && Valid()
    {
      cache := map[];
      calls := 0;
    }

    method Call(n: int) returns (r: int)
      requires Valid()
      modifies this
      decreases if n < 0 then 0 else n
      ensures Valid() && r == FibSpec(n)
      ensures n in cache && forall k :: k in old(cache) ==> k in cache
      ensures n in old(cache) ==> cache == old(cache) && calls == old(calls) + 1
      ensures n <= 1 && n !in old(cache) ==> cache == old(cache)[n := 1] && calls == old(calls) + 1
      ensures old(cache) == map[] ==> cache.Keys == Reached(n) && calls == old(calls) + FreshCalls(n)
    {
      calls := calls + 1;
      if n in cache {
        return cache[n];
      }
      if n <= 1 {
        r := 1;
      } else {
        var a := Call(n - 1);
        var b := Call(n - 2);
        r := a + b;
      }
      cache := cache[n := r];
    }
  }

  /** The docstring's example: `fib(3) == 3`, after five counted calls. */
  method FibMain() returns (r: int, calls: nat)
    ensures r == 3 && calls == 5
  {
    var fib := new Fib();
    r := fib.Call(3);
    calls := fib.calls;
  }
}
