/** Version 3 of the railway: `RailwayHandler<T>` is at once the outcome (final fields `value`
    and `error`) and a pipeline (a mutable list of same-typed steps run by `execute()`), with
    the type-changing combinators `flatMap` and `map`. */
module RopV3 {
  import opened JavaLang

  /** The final fields of a handler: `value` and `error`, each possibly null. `getValue()` and
      `getError()` are the destructors `value` and `error`: on the wrong track they return
      null (None) rather than failing. */
  datatype HandlerFields<T> = HandlerFields(value: Option<T>, error: Option<Throwable>)
  {
    /** `isSuccess()` looks only at the error field. */
    predicate IsSuccess()
    {
      error == None
    }

    /** `flatMap(mapper)`: on success the mapper's outcome, or `failure(e)` if it threw `e`;
        on failure a new failure with the same error, without calling the mapper. */
    function FlatMap<R>(mapper: Option<T> -> Call<Outcome<R>>): Outcome<R>
    {
      if IsSuccess() then
        match mapper(value)
        case Returned(h) => h
        case Threw(e) => Failure(Some(e))
      else
        Failure(error)
    }

    /** `map(mapper)`: on success `success(mapper(value))`, or `failure(e)` if it threw `e`;
        on failure a new failure with the same error, without calling the mapper. */
    function Map<B>(mapper: Option<T> -> Call<Option<B>>): Outcome<B>
    {
      if IsSuccess() then
        match mapper(value)
        case Returned(b) => Success(b)
        case Threw(e) => Failure(Some(e))
      else
        Failure(error)
    }
  }

  /** The value/error pair of a handler. The private constructor is called only as
      `(value, null)` or `(null, error)`, so no handler holds two non-null payloads. */
  type Outcome<T> = h: HandlerFields<T> | h.value == None || h.error == None
    witness HandlerFields(None, None)

  /** `success(value)` */
  function Success<T>(value: Option<T>): Outcome<T>
  {
    HandlerFields(value, None)
  }

  /** `failure(error)`; the argument may be null. */
  function Failure<T>(error: Option<Throwable>): Outcome<T>
  {
    HandlerFields(None, error)
  }

  /** A step of the pipeline: a function from the current value to the outcome of a handler. */
  type Step<!T> = Option<T> -> Call<Outcome<T>>

  /** What `execute()` returns: from outcome `h`, each step in turn is applied to the current
      value while the current outcome is a success; a throwing step ends the run with
      `failure(e)`; a failed outcome is returned as it is. */
  function RunSteps<T>(h: Outcome<T>, steps: seq<Step<T>>): Outcome<T>
    decreases |steps|
  {
    if steps == [] || !h.IsSuccess() then h
    else
      match steps[0](h.value)
      case Threw(e) => Failure(Some(e))
      case Returned(next) => RunSteps(next, steps[1..])
  }

  /** How many steps `execute()` invokes before it stops. */
  ghost function Invoked<T>(h: Outcome<T>, steps: seq<Step<T>>): nat
    decreases |steps|
  {
    if steps == [] || !h.IsSuccess() then 0
    else
      match steps[0](h.value)
      case Threw(_) => 1
      case Returned(next) => 1 + Invoked(next, steps[1..])
  }

  /** A reference definition: the left fold of `flatMap` over the steps, without early exit. */
  function FoldFlatMap<T>(h: Outcome<T>, steps: seq<Step<T>>): Outcome<T>
    decreases |steps|
  {
    if steps == [] then h else FoldFlatMap(h.FlatMap(steps[0]), steps[1..])
  }

  class RailwayHandler<T> {
    const value: Option<T>
    const error: Option<Throwable>
    var steps: seq<Step<T>>

    /** The handler was built by `success` or `failure`: not both payloads are non-null. */
    predicate Valid()
    {
      value == None || error == None
    }

    /** This handler's value/error pair. */
    function Track(): Outcome<T>
      requires Valid()
    {
      HandlerFields(value, error)
    }

    /** `RailwayHandler.success(v)`: a new handler with no steps. */
    constructor SuccessHandler(v: Option<T>)
      ensures Valid() && Track() == Success(v) && steps == []
    {
      value := v;
      error := None;
      steps := [];
    }

    /** `RailwayHandler.failure(e)`: a new handler with no steps. */
    constructor FailureHandler(e: Option<Throwable>)
      ensures Valid() && Track() == Failure(e) && steps == []
    {
      value := None;
      error := e;
      steps := [];
    }

    /** `RailwayHandler.start(v)` is `success(v)`. */
    static method Start(v: Option<T>) returns (h: RailwayHandler<T>)
      ensures fresh(h) && h.Valid() && h.Track() == Success(v) && h.steps == []
    {
      h := new RailwayHandler.SuccessHandler(v);
    }

    /** Appends one step and returns the same handler. */
    method AddStep(step: Step<T>) returns (self: RailwayHandler<T>)
      modifies this
      ensures self == this
      ensures steps == old(steps) + [step]
    {
      steps := steps + [step];
      self := this;
    }

    /** Runs the steps, starting from this handler's own outcome. `applied` counts the steps
        invoked. `steps` is only read (there is no modifies clause). */
    method Execute() returns (r: Outcome<T>, ghost applied: nat)
      requires Valid()
      ensures r == RunSteps(Track(), steps)
      ensures applied == Invoked(Track(), steps)
    {
      var current := Track();
      applied := 0;
      var i := 0;
      while i < |steps|
        invariant 0 <= i <= |steps|
        invariant RunSteps(current, steps[i..]) == RunSteps(Track(), steps)
        invariant applied + Invoked(current, steps[i..]) == Invoked(Track(), steps)
      {
        assert steps[i..][0] == steps[i] && steps[i..][1..] == steps[i + 1..];
        if current.IsSuccess() {
          var call := steps[i](current.value);
          applied := applied + 1;
          if call.Threw? {
            r := Failure(Some(call.thrown));
            return;
          }
          current := call.result;
        } else {
          r := current;
          return;
        }
        i := i + 1;
      }
      r := current;
    }
  }

  /** What `success`, `failure` and `isSuccess` promise; `failure(null)` reports success. */
  lemma ConstructorsAndQueries<T>(v: Option<T>, e: Throwable)
    ensures var s := Success<T>(v); s.IsSuccess() && s.value == v && s.error == None
    ensures var f := Failure<T>(Some(e)); !f.IsSuccess() && f.value == None && f.error == Some(e)
    ensures var n := Failure<T>(None); n.IsSuccess() && n.value == None
  {
  }

  /** `flatMap` and `map` on success: the mapper is applied to the payload; a throw becomes
      `failure(e)`. */
  lemma CombinatorsOnSuccess<T, R, B>(v: Option<T>, f: Option<T> -> Call<Outcome<R>>, m: Option<T> -> Call<Option<B>>)
    ensures Success(v).FlatMap(f) == (match f(v) case Returned(h) => h case Threw(e) => Failure(Some(e)))
    ensures Success(v).Map(m) == (match m(v) case Returned(b) => Success(b) case Threw(e) => Failure(Some(e)))
  {
  }

  /** Sticky failure: on a failure, `flatMap` and `map` do not depend on the mapper (it is never
      called) and return a failure with the identical error. */
  lemma StickyFailure<T, R, B>(h: Outcome<T>, f: Option<T> -> Call<Outcome<R>>, f': Option<T> -> Call<Outcome<R>>,
                               m: Option<T> -> Call<Option<B>>, m': Option<T> -> Call<Option<B>>)
    requires !h.IsSuccess()
    ensures h.FlatMap(f) == h.FlatMap(f') && h.Map(m) == h.Map(m')
    ensures !h.FlatMap(f).IsSuccess() && h.FlatMap(f).error == h.error
    ensures !h.Map(m).IsSuccess() && h.Map(m).error == h.error
  {
  }

  /** The step that `map(m)` amounts to: apply `m` and wrap its result with `success`. */
  function Lift<T, B>(m: Option<T> -> Call<Option<B>>): Option<T> -> Call<Outcome<B>>
  {
    x => match m(x)
         case Returned(b) => Returned(Success(b))
         case Threw(e) => Threw(e)
  }

  /** `map(m)` is `flatMap` of `m` followed by `success`. */
  lemma MapIsFlatMap<T, B>(h: Outcome<T>, m: Option<T> -> Call<Option<B>>)
    ensures h.Map(m) == h.FlatMap(Lift(m))
  {
  }

  /** The lambda `x -> f.apply(x).flatMap(g)`: if `f` throws, the lambda throws too. */
  function AndThen<T, R, S>(f: Option<T> -> Call<Outcome<R>>, g: Option<R> -> Call<Outcome<S>>)
    : Option<T> -> Call<Outcome<S>>
  {
    x => match f(x)
         case Threw(e) => Threw(e)
         case Returned(h) => Returned(h.FlatMap(g))
  }

  /** Associativity, throwing mappers included:
      `h.flatMap(f).flatMap(g)` equals `h.flatMap(x -> f(x).flatMap(g))`. */
  lemma Associativity<T, R, S>(h: Outcome<T>, f: Option<T> -> Call<Outcome<R>>,
                               g: Option<R> -> Call<Outcome<S>>)
    ensures h.FlatMap(f).FlatMap(g) == h.FlatMap(AndThen(f, g))
  {
    if h.IsSuccess() {
      match f(h.value)
      case Threw(e) =>
      case Returned(q) =>
    }
  }

  /** Mapping with the identity gives back an equal handler. */
  lemma MapIdentity<T>(h: Outcome<T>)
    ensures h.Map(x => Returned(x)) == h
  {
  }

  /** With no steps, or when the handler is already failed, `execute()` returns the handler's
      own outcome and invokes no step. */
  lemma ReturnsOwnOutcome<T>(h: Outcome<T>, steps: seq<Step<T>>)
    requires steps == [] || !h.IsSuccess()
    ensures RunSteps(h, steps) == h && Invoked(h, steps) == 0
  {
  }

  /** Left fold of `flatMap` over a failed handler gives that handler back. */
  lemma {:induction false} FoldOfFailure<T>(h: Outcome<T>, steps: seq<Step<T>>)
    requires !h.IsSuccess()
    ensures FoldFlatMap(h, steps) == h
    decreases |steps|
  {
    if steps != [] {
      assert h.FlatMap(steps[0]) == h;
      FoldOfFailure(h, steps[1..]);
    }
  }

  /** `execute()`, with its early returns, equals the plain left fold of `flatMap`. */
  lemma {:induction false} RunIsFoldFlatMap<T>(h: Outcome<T>, steps: seq<Step<T>>)
    ensures RunSteps(h, steps) == FoldFlatMap(h, steps)
    decreases |steps|
  {
    if steps != [] {
      if !h.IsSuccess() {
        FoldOfFailure(h, steps);
      } else {
        match steps[0](h.value)
        case Threw(e) =>
          FoldOfFailure(Failure<T>(Some(e)), steps[1..]);
        case Returned(next) =>
          RunIsFoldFlatMap(next, steps[1..]);
      }
    }
  }

  /** Running `a + b` is running `a`, then running `b` from where `a` stopped. */
  lemma {:induction false} RunAppend<T>(h: Outcome<T>, a: seq<Step<T>>, b: seq<Step<T>>)
    ensures RunSteps(h, a + b) == RunSteps(RunSteps(h, a), b)
    ensures Invoked(h, a + b) == Invoked(h, a) + Invoked(RunSteps(h, a), b)
    decreases |a|
  {
    if a == [] {
      assert a + b == b;
    } else if h.IsSuccess() {
      assert (a + b)[0] == a[0] && (a + b)[1..] == a[1..] + b;
      match a[0](h.value)
      case Threw(e) =>
      case Returned(next) =>
        RunAppend(next, a[1..], b);
    }
  }

  /** Steps run in registration order, each on the previous step's value: a step added last
      acts on the outcome of the steps before it exactly as `flatMap` does. */
  lemma RunSnoc<T>(h: Outcome<T>, steps: seq<Step<T>>, step: Step<T>)
    ensures RunSteps(h, steps + [step]) == RunSteps(h, steps).FlatMap(step)
  {
    RunAppend(h, steps, [step]);
    assert [step][1..] == [];
  }

  /** At most every step is invoked, and on success every one of them is. */
  lemma {:induction false} InvokedBound<T>(h: Outcome<T>, steps: seq<Step<T>>)
    ensures Invoked(h, steps) <= |steps|
    ensures RunSteps(h, steps).IsSuccess() ==> Invoked(h, steps) == |steps|
    decreases |steps|
  {
    if steps != [] && h.IsSuccess() {
      match steps[0](h.value)
      case Threw(e) =>
      case Returned(next) =>
        InvokedBound(next, steps[1..]);
    }
  }

  /** Short-circuit: once the running handler is a failure, no later step is invoked and that
      same outcome is returned. */
  lemma LaterStepsIgnored<T>(h: Outcome<T>, done: seq<Step<T>>, later: seq<Step<T>>)
    requires !RunSteps(h, done).IsSuccess()
    ensures RunSteps(h, done + later) == RunSteps(h, done)
    ensures Invoked(h, done + later) == Invoked(h, done) <= |done|
  {
    RunAppend(h, done, later);
    InvokedBound(h, done);
  }

  /** A step that throws `e` on the running success value makes `execute()` return
      `failure(e)`, and no later step runs. */
  lemma ThrowingStep<T>(h: Outcome<T>, done: seq<Step<T>>, step: Step<T>, later: seq<Step<T>>, e: Throwable)
    requires RunSteps(h, done).IsSuccess()
    requires step(RunSteps(h, done).value) == Threw(e)
    ensures RunSteps(h, done + [step] + later) == Failure(Some(e))
    ensures Invoked(h, done + [step] + later) == Invoked(h, done) + 1
  {
    RunAppend(h, done + [step], later);
    RunAppend(h, done, [step]);
    assert [step][1..] == [];
  }
}
