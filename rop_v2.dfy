/** Version 2 of the railway: the immutable outcome `RailwayPattern` with `flatMap`, and a
    separate mutable `RailwayBuilder` whose `execute(input)` folds `flatMap` over its steps. */
module RopV2 {
  import opened JavaLang

  /** The final fields of a `RailwayPattern<T>`: `value` and `error`, each possibly null.
      `getValue()` and `getError()` are the destructors `value` and `error`: on the wrong track
      they return null (None) rather than failing. */
  datatype PatternFields<T> = PatternFields(value: Option<T>, error: Option<Throwable>)
  {
    /** `isSuccess()` looks only at the error field. */
    predicate IsSuccess()
    {
      error == None
    }

    /** `flatMap(mapper)`: on success the mapper's outcome, or a failure carrying what it threw;
        on failure a new failure with the same error, without calling the mapper. */
    function FlatMap<R>(mapper: Option<T> -> Call<RailwayPattern<R>>): RailwayPattern<R>
    {
      if IsSuccess() then
        match mapper(value)
        case Returned(p) => p
        case Threw(e) => Failure(Some(e))
      else
        Failure(error)
    }
  }

  /** The private constructor is called only as `(value, null)` or `(null, error)`, so no
      `RailwayPattern` holds two non-null payloads. */
  type RailwayPattern<T> = p: PatternFields<T> | p.value == None || p.error == None
    witness PatternFields(None, None)

  /** `success(value)` */
  function Success<T>(value: Option<T>): RailwayPattern<T>
  {
    PatternFields(value, None)
  }

  /** `failure(error)`; the argument may be null. */
  function Failure<T>(error: Option<Throwable>): RailwayPattern<T>
  {
    PatternFields(None, error)
  }

  /** The lambda `x -> f.apply(x).flatMap(g)`: if `f` throws, the lambda throws too. */
  function AndThen<T, R, S>(f: Option<T> -> Call<RailwayPattern<R>>, g: Option<R> -> Call<RailwayPattern<S>>)
    : Option<T> -> Call<RailwayPattern<S>>
  {
    x => match f(x)
         case Threw(e) => Threw(e)
         case Returned(p) => Returned(p.FlatMap(g))
  }

  /** What `success`, `failure` and `isSuccess` promise; `failure(null)` reports success. */
  lemma ConstructorsAndQueries<T>(v: Option<T>, e: Throwable)
    ensures var s := Success<T>(v); s.IsSuccess() && s.value == v && s.error == None
    ensures var f := Failure<T>(Some(e)); !f.IsSuccess() && f.value == None && f.error == Some(e)
    ensures var n := Failure<T>(None); n.IsSuccess() && n.value == None
  {
  }

  /** `flatMap` on success: what the mapper returns for the payload, or the failure of what it threw. */
  lemma FlatMapOnSuccess<T, R>(v: Option<T>, mapper: Option<T> -> Call<RailwayPattern<R>>)
    ensures mapper(v).Returned? ==> Success(v).FlatMap(mapper) == mapper(v).result
    ensures mapper(v).Threw? ==>
              Success(v).FlatMap(mapper) == Failure<R>(Some(mapper(v).thrown))
  {
  }

  /** Sticky failure: `flatMap` on a failure does not depend on the mapper (it is never called)
      and carries the identical error. */
  lemma StickyFailure<T, R>(p: RailwayPattern<T>, f: Option<T> -> Call<RailwayPattern<R>>,
                            g: Option<T> -> Call<RailwayPattern<R>>)
    requires !p.IsSuccess()
    ensures p.FlatMap(f) == p.FlatMap(g)
    ensures !p.FlatMap(f).IsSuccess() && p.FlatMap(f).error == p.error && p.FlatMap(f).value == None
  {
  }

  /** Associativity, throwing mappers included:
      `p.flatMap(f).flatMap(g)` equals `p.flatMap(x -> f(x).flatMap(g))`. */
  lemma Associativity<T, R, S>(p: RailwayPattern<T>, f: Option<T> -> Call<RailwayPattern<R>>,
                               g: Option<R> -> Call<RailwayPattern<S>>)
    ensures p.FlatMap(f).FlatMap(g) == p.FlatMap(AndThen(f, g))
  {
    if p.IsSuccess() {
      match f(p.value)
      case Threw(e) =>
      case Returned(q) =>
    }
  }

  /** A piece of a `RailwayBuilder`: a function from the current value to an outcome. */
  type Step<!T> = Option<T> -> Call<RailwayPattern<T>>

  /** The left fold of `flatMap` over `steps`, starting from `acc`. */
  function FoldFlatMap<T>(acc: RailwayPattern<T>, steps: seq<Step<T>>): RailwayPattern<T>
    decreases |steps|
  {
    if steps == [] then acc else FoldFlatMap(acc.FlatMap(steps[0]), steps[1..])
  }

  /** How many steps `execute` invokes: it stops as soon as the running outcome is a failure. */
  ghost function Invoked<T>(acc: RailwayPattern<T>, steps: seq<Step<T>>): nat
    decreases |steps|
  {
    if steps == [] || !acc.IsSuccess() then 0 else 1 + Invoked(acc.FlatMap(steps[0]), steps[1..])
  }

  class RailwayBuilder<T> {
    var steps: seq<Step<T>>

    constructor ()
      ensures steps == []
    {
      steps := [];
    }

    /** Appends one step and returns the same builder. */
    method AddStep(step: Step<T>) returns (self: RailwayBuilder<T>)
      modifies this
      ensures self == this
      ensures steps == old(steps) + [step]
    {
      steps := steps + [step];
      self := this;
    }

    /** Runs the steps from `success(input)`, returning at the first failure. `applied`
        counts the steps invoked. `steps` is only read (there is no modifies clause). */
    method Execute(input: Option<T>) returns (r: RailwayPattern<T>, ghost applied: nat)
      ensures r == FoldFlatMap(Success(input), steps)
      ensures applied == Invoked(Success(input), steps)
    {
      var result := Success(input);
      applied := 0;
      var i := 0;
      while i < |steps|
        invariant 0 <= i <= |steps|
        invariant FoldFlatMap(result, steps[i..]) == FoldFlatMap(Success(input), steps)
        invariant applied + Invoked(result, steps[i..]) == Invoked(Success(input), steps)
      {
        assert steps[i..][0] == steps[i] && steps[i..][1..] == steps[i + 1..];
        if result.IsSuccess() {
          result := result.FlatMap(steps[i]);
          applied := applied + 1;
        } else {
          FoldOfFailure(result, steps[i..]);
          r := result;
          return;
        }
        i := i + 1;
      }
      r := result;
    }
  }

  /** A fresh builder runs no step: `new RailwayBuilder<>().execute(x)` is `success(x)`. */
  method ExecuteFresh<T>(x: Option<T>) returns (r: RailwayPattern<T>)
    ensures r == Success(x)
  {
    var b := new RailwayBuilder<T>();
    ghost var applied;
    r, applied := b.Execute(x);
  }

  /** `execute` keeps no state between runs: two runs with different inputs each give the
      fold from their own input. */
  method ExecuteTwice<T>(b: RailwayBuilder<T>, x: Option<T>, y: Option<T>)
    returns (rx: RailwayPattern<T>, ry: RailwayPattern<T>)
    ensures rx == FoldFlatMap(Success(x), b.steps)
    ensures ry == FoldFlatMap(Success(y), b.steps)
  {
    ghost var applied;
    rx, applied := b.Execute(x);
    ry, applied := b.Execute(y);
  }

  /** Folding over a failure changes nothing and invokes nothing. */
  lemma {:induction false} FoldOfFailure<T>(acc: RailwayPattern<T>, steps: seq<Step<T>>)
    requires !acc.IsSuccess()
    ensures FoldFlatMap(acc, steps) == acc
    ensures Invoked(acc, steps) == 0
    decreases |steps|
  {
    if steps != [] {
      assert acc.FlatMap(steps[0]) == acc;
      FoldOfFailure(acc, steps[1..]);
    }
  }

  /** Folding over `a + b` is folding over `a` and then over `b`. */
  lemma {:induction false} FoldAppend<T>(acc: RailwayPattern<T>, a: seq<Step<T>>, b: seq<Step<T>>)
    ensures FoldFlatMap(acc, a + b) == FoldFlatMap(FoldFlatMap(acc, a), b)
    ensures Invoked(acc, a + b) == Invoked(acc, a) + Invoked(FoldFlatMap(acc, a), b)
    decreases |a|
  {
    if a == [] {
      assert a + b == b;
    } else {
      assert (a + b)[0] == a[0] && (a + b)[1..] == a[1..] + b;
      if acc.IsSuccess() {
        FoldAppend(acc.FlatMap(a[0]), a[1..], b);
      } else {
        FoldOfFailure(acc, a);
        FoldOfFailure(acc, a + b);
        FoldOfFailure(acc, b);
      }
    }
  }

  /** Steps run in registration order: a step added last is `flatMap`ped onto the outcome of
      the steps before it. */
  lemma FoldSnoc<T>(acc: RailwayPattern<T>, steps: seq<Step<T>>, step: Step<T>)
    ensures FoldFlatMap(acc, steps + [step]) == FoldFlatMap(acc, steps).FlatMap(step)
  {
    FoldAppend(acc, steps, [step]);
    assert [step][1..] == [];
  }

  /** At most every step is invoked, and when the fold ends in success every one of them is. */
  lemma {:induction false} InvokedBound<T>(acc: RailwayPattern<T>, steps: seq<Step<T>>)
    ensures Invoked(acc, steps) <= |steps|
    ensures FoldFlatMap(acc, steps).IsSuccess() ==> Invoked(acc, steps) == |steps|
    decreases |steps|
  {
    if steps != [] {
      if acc.IsSuccess() {
        InvokedBound(acc.FlatMap(steps[0]), steps[1..]);
      } else {
        FoldOfFailure(acc, steps);
      }
    }
  }

  /** Short-circuit: after the steps done so far yielded a failure, no later step is invoked and
      that failure is the result. */
  lemma LaterStepsIgnored<T>(acc: RailwayPattern<T>, done: seq<Step<T>>, later: seq<Step<T>>)
    requires !FoldFlatMap(acc, done).IsSuccess()
    ensures FoldFlatMap(acc, done + later) == FoldFlatMap(acc, done)
    ensures Invoked(acc, done + later) == Invoked(acc, done) <= |done|
  {
    FoldAppend(acc, done, later);
    FoldOfFailure(FoldFlatMap(acc, done), later);
    InvokedBound(acc, done);
  }

  /** A step that throws `e` on the running success value makes the whole run `failure(e)`;
      it is the last step invoked. */
  lemma ThrowingStep<T>(acc: RailwayPattern<T>, done: seq<Step<T>>, step: Step<T>, later: seq<Step<T>>, e: Throwable)
    requires FoldFlatMap(acc, done).IsSuccess()
    requires step(FoldFlatMap(acc, done).value) == Threw(e)
    ensures FoldFlatMap(acc, done + [step] + later) == Failure(Some(e))
    ensures Invoked(acc, done + [step] + later) == |done| + 1
  {
    FoldAppend(acc, done + [step], later);
    FoldAppend(acc, done, [step]);
    assert [step][1..] == [];
    InvokedBound(acc, done);
    FoldOfFailure(Failure<T>(Some(e)), later);
  }
}
