/** Version 1 of the railway: a closed `Result` type with a generic error, and an
    `OperationBuilder` that runs same-typed operations on a fixed input. */
module RopV1 {

  /** `Result<T, E>`: its private constructor and final nested classes admit exactly the two
      variants. `getValue()` exists only on `Success` and `getError()` only on `Failure`:
      they are the destructors `value` and `error`. */
  datatype Result<T, E> = Success(value: T) | Failure(error: E)

  /** `Operation<T, T, E>`: a function from the current value to a result. Version 1 catches
      no exceptions, so an operation is modelled as total. */
  type Operation<!T, E> = T -> Result<T, E>

  /** What `execute()` returns for a given input and operation list: operations run in order,
      each on the previous success value; the first `Failure` is passed back as it is. */
  function Chain<T, E>(input: T, ops: seq<Operation<T, E>>): Result<T, E>
    decreases |ops|
  {
    if ops == [] then Success(input)
    else
      var result := ops[0](input);
      if result.Failure? then result else Chain(result.value, ops[1..])
  }

  /** How many operations `execute()` invokes before it stops. */
  ghost function Applied<T, E>(input: T, ops: seq<Operation<T, E>>): nat
    decreases |ops|
  {
    if ops == [] then 0
    else
      var result := ops[0](input);
      if result.Failure? then 1 else 1 + Applied(result.value, ops[1..])
  }

  class OperationBuilder<T, E> {
    var input: T
    var operations: seq<Operation<T, E>>

    constructor (input: T)
      ensures this.input == input && operations == []
    {
      this.input := input;
      operations := [];
    }

    /** Appends one operation and returns the same builder. */
    method AddOperation(operation: Operation<T, E>) returns (self: OperationBuilder<T, E>)
      modifies this
      ensures self == this
      ensures operations == old(operations) + [operation]
      ensures input == old(input)
    {
      operations := operations + [operation];
      self := this;
    }

    /** Runs the operations on `input`. `applied` counts the operations invoked.
        Neither `input` nor `operations` changes (there is no modifies clause). */
    method Execute() returns (r: Result<T, E>, ghost applied: nat)
      ensures r == Chain(input, operations)
      ensures applied == Applied(input, operations)
    {
      var current := input;
      var i := 0;
      applied := 0;
      while i < |operations|
        invariant 0 <= i <= |operations|
        invariant Chain(current, operations[i..]) == Chain(input, operations)
        invariant applied + Applied(current, operations[i..]) == Applied(input, operations)
      {
        assert operations[i..][0] == operations[i] && operations[i..][1..] == operations[i + 1..];
        var result := operations[i](current);
        applied := applied + 1;
        if result.Failure? {
          r := result;
          return;
        }
        current := result.value;
        i := i + 1;
      }
      r := Success(current);
    }
  }

  /** `Result.builder(initialValue)`: a new builder with that input and no operations. */
  method Builder<T, E>(initialValue: T) returns (b: OperationBuilder<T, E>)
    ensures fresh(b)
    ensures b.input == initialValue && b.operations == []
  {
    b := new OperationBuilder(initialValue);
  }

  /** `Result.builder(x).execute()` is `Success(x)`. */
  method BuildAndExecute<T, E>(x: T) returns (r: Result<T, E>)
    ensures r == Success(x)
  {
    var b := Builder<T, E>(x);
    ghost var applied;
    r, applied := b.Execute();
  }

  /** Calling `execute()` twice on the same builder gives equal results. */
  method ExecuteTwice<T, E>(b: OperationBuilder<T, E>) returns (first: Result<T, E>, second: Result<T, E>)
    ensures first == second == Chain(b.input, b.operations)
  {
    ghost var applied;
    first, applied := b.Execute();
    second, applied := b.Execute();
  }

  /** Running `a` then `b` is running `a`, and on success running `b` on its value. */
  lemma {:induction false} ChainAppend<T, E>(input: T, a: seq<Operation<T, E>>, b: seq<Operation<T, E>>)
    ensures Chain(input, a + b) ==
              (var mid := Chain(input, a); if mid.Success? then Chain(mid.value, b) else mid)
    ensures Applied(input, a + b) ==
              Applied(input, a) + (var mid := Chain(input, a); if mid.Success? then Applied(mid.value, b) else 0)
    decreases |a|
  {
    if a == [] {
      assert a + b == b;
    } else {
      assert (a + b)[0] == a[0] && (a + b)[1..] == a[1..] + b;
      var result := a[0](input);
      if result.Success? {
        ChainAppend(result.value, a[1..], b);
      }
    }
  }

  /** Operations run in insertion order, each on the previous success value: adding an
      operation at the end applies it to the old final value, and on failure changes nothing. */
  lemma ChainSnoc<T, E>(input: T, ops: seq<Operation<T, E>>, op: Operation<T, E>)
    ensures Chain(input, ops + [op]) ==
              (var r := Chain(input, ops); if r.Success? then op(r.value) else r)
  {
    ChainAppend(input, ops, [op]);
    var r := Chain(input, ops);
    if r.Success? {
      assert [op][1..] == [];
    }
  }

  /** Short-circuit: once the operations done so far have failed, later operations are never
      applied and the same failure is returned. */
  lemma LaterOperationsIgnored<T, E>(input: T, done: seq<Operation<T, E>>, later: seq<Operation<T, E>>)
    requires Chain(input, done).Failure?
    ensures Chain(input, done + later) == Chain(input, done)
    ensures Applied(input, done + later) == Applied(input, done) <= |done|
  {
    ChainAppend(input, done, later);
    AppliedBound(input, done);
  }

  /** At most every operation is invoked, and on success every one of them is. */
  lemma {:induction false} AppliedBound<T, E>(input: T, ops: seq<Operation<T, E>>)
    ensures Applied(input, ops) <= |ops|
    ensures Chain(input, ops).Success? ==> Applied(input, ops) == |ops|
    decreases |ops|
  {
    if ops != [] {
      var result := ops[0](input);
      if result.Success? {
        AppliedBound(result.value, ops[1..]);
      }
    }
  }

  /** A `Failure` is never built by `execute()` itself: it is exactly what the last invoked
      operation returned, when applied to the success value of the operations before it. */
  lemma {:induction false} FailureComesFromOperation<T, E>(input: T, ops: seq<Operation<T, E>>)
    requires Chain(input, ops).Failure?
    ensures 1 <= Applied(input, ops) <= |ops|
    ensures var k := Applied(input, ops) - 1;
              Chain(input, ops[..k]).Success? &&
              ops[k](Chain(input, ops[..k]).value) == Chain(input, ops)
    decreases |ops|
  {
    var result := ops[0](input);
    assert ops[..0] == [];
    if result.Success? {
      FailureComesFromOperation(result.value, ops[1..]);
      var k := Applied(result.value, ops[1..]) - 1;
      assert ops[1..][..k] == ops[1..k + 1];
      assert ops[..k + 1] == [ops[0]] + ops[1..k + 1];
      ChainAppend(input, [ops[0]], ops[1..k + 1]);
      assert [ops[0]][1..] == [];
    }
  }
}
