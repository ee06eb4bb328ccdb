# Railway-oriented programming in Java, modelled in Dafny

The repository implements railway-oriented programming three times. Each version has a
two-track outcome value and a pipeline that runs an ordered list of steps against an initial
value, stopping at the first failure. A sample consumer, `UserService`, chains validation,
entity mapping and a mock save on top of version 3.

This project models each version in its own module, following the Java packages:

- `JavaLang` (`java_lang.dfy`): Java references that may be null (`Option`, `None` is
  `null`), thrown objects (`Throwable`), and the result of calling a Java function object that
  may throw (`Call`: `Returned(r)` or `Threw(t)`). Every `try`/`catch` becomes an explicit
  branch on `Call`.
- `RopV1` (`rop_v1.dfy`): `Result<T, E>` as a two-variant datatype with a generic error,
  `Operation<T, T, E>` as a total function `T -> Result<T, E>`, and the class
  `OperationBuilder` with a fixed `input` and a `seq` of operations. `Chain` states what
  `execute()` returns; `Applied` counts the operations it invokes.
- `RopV2` (`rop_v2.dfy`): the immutable `RailwayPattern` (value and error, both nullable)
  with `success`, `failure`, `isSuccess` and `flatMap`, and the class `RailwayBuilder` whose
  `execute(input)` is proved equal to the left fold of `flatMap` over its steps
  (`FoldFlatMap`). `Invoked` counts the steps invoked.
- `RopV3` (`rop_v3.dfy`): `RailwayHandler` as a class with the final fields `value` and
  `error` and a mutable `steps` list. Its value/error pair (`Outcome`) carries `flatMap` and
  `map`. `RunSteps` states what `execute()` returns, with its early returns. It is proved
  equal to the plain left fold of `flatMap`.
- `UserServiceV4` (`user_service.dfy`): the records `UserDTO` and `User`, the repository as
  an injected function (the mock of the constructor is `MockSave`), the four steps and
  `createUser`.
- `Demos` (`demos.dfy`): the integer step lambdas of `Main` used as concrete inputs to the
  version 2 and version 3 builders.

No handler or pattern holds two non-null payloads, because the private constructor is called
only from `success` and `failure`. This is the subset type `Outcome<T>` (version 3) and
`RailwayPattern<T>` (version 2). In `Result`, exactly one of `Success`/`Failure` holds by
construction of the datatype, and its destructors `value` and `error` are `getValue()` and
`getError()`. Its payloads are immutable, like every datatype value.

Where the intended design of a fail-fast outcome type and the code disagree, the model follows
the code:
- In versions 2 and 3, `getValue()` on a failure and `getError()` on a success return null; they do not fail.
- `failure(null)` reports success, because `isSuccess()` only tests the error for null.
- Versions 2 and 3 fix the error type to `Throwable`; only version 1 has a generic error.
- The builders mutate their step list in place and return themselves; they are classes whose
  `AddStep`/`AddOperation` append to a `seq` field.

## Model

| member | source | states |
|---|---|---|
| `RopV1.OperationBuilder.constructor` | src/main/java/app/quantun/rop/v1/OperationBuilder.java:9-13 | the builder stores the input and starts with no operations |
| `RopV1.OperationBuilder.AddOperation` | src/main/java/app/quantun/rop/v1/OperationBuilder.java:15-18 | exactly one operation is appended at the end, earlier ones keep their order, the input is unchanged, and the same builder is returned |
| `RopV1.OperationBuilder.Execute` | src/main/java/app/quantun/rop/v1/OperationBuilder.java:23-33 | the loop with its early return computes `Chain(input, operations)` and invokes `Applied(input, operations)` operations; it changes neither field |
| `RopV1.Chain` | src/main/java/app/quantun/rop/v1/OperationBuilder.java:23-33 | what `execute()` returns; its properties are `ChainAppend`, `ChainSnoc`, `LaterOperationsIgnored` and `FailureComesFromOperation` |
| `RopV1.Builder` | src/main/java/app/quantun/rop/v1/Result.java:8-10 | `builder(x)` is a new builder with input `x` and no operations |
| `RopV1.BuildAndExecute` | src/main/java/app/quantun/rop/v1/Result.java:8-10 | `builder(x).execute()` is `Success(x)` |
| `RopV1.ExecuteTwice` | src/main/java/app/quantun/rop/v1/OperationBuilder.java:23-33 | two calls of `execute()` on one builder give equal results |
| `RopV1.ChainAppend` | src/main/java/app/quantun/rop/v1/OperationBuilder.java:24-32 | running `a + b` is running `a`, then on success running `b` on its value, else keeping the failure; the invocation counts add up the same way |
| `RopV1.ChainSnoc` | src/main/java/app/quantun/rop/v1/OperationBuilder.java:24-32 | operations run in insertion order, each on the previous success value: a last operation is applied to the value the others produced, and its result (`Success` of the new value, or its `Failure`) is the result |
| `RopV1.LaterOperationsIgnored` | src/main/java/app/quantun/rop/v1/OperationBuilder.java:26-29 | once the operations so far gave a `Failure`, any later operations leave the result unchanged and are not invoked |
| `RopV1.AppliedBound` | src/main/java/app/quantun/rop/v1/OperationBuilder.java:25-32 | at most every operation is invoked, and on `Success` all of them are |
| `RopV1.FailureComesFromOperation` | src/main/java/app/quantun/rop/v1/OperationBuilder.java:26-32 | a `Failure` result is exactly what the last invoked operation returned for the success value before it; `execute` never builds one itself |
| `RopV2.Success` | src/main/java/app/quantun/rop/v2/RailwayPattern.java:14-16 | `success(v)`; stated by `ConstructorsAndQueries` |
| `RopV2.Failure` | src/main/java/app/quantun/rop/v2/RailwayPattern.java:18-20 | `failure(e)`, with a possibly null `e`; stated by `ConstructorsAndQueries` |
| `RopV2.PatternFields.IsSuccess` | src/main/java/app/quantun/rop/v2/RailwayPattern.java:22-24 | `isSuccess()`: the error is null; stated by `ConstructorsAndQueries`, including `failure(null)` |
| `RopV2.PatternFields.FlatMap` | src/main/java/app/quantun/rop/v2/RailwayPattern.java:35-46 | `flatMap(mapper)` with its `catch`; stated by `FlatMapOnSuccess`, `StickyFailure` and `Associativity` |
| `RopV2.AndThen` | src/main/java/app/quantun/rop/v2/RailwayPattern.java:35-46 | the composed mapper `x -> f(x).flatMap(g)`; it is the right-hand side of `Associativity` |
| `RopV2.ConstructorsAndQueries` | src/main/java/app/quantun/rop/v2/RailwayPattern.java:14-31 | `success(v)` is a success with value `v` and null error; `failure(e)` with non-null `e` is not a success, has null value and error `e`; `failure(null)` reports success |
| `RopV2.FlatMapOnSuccess` | src/main/java/app/quantun/rop/v2/RailwayPattern.java:36-42 | on success `flatMap` returns exactly what the mapper returns for the payload, and `failure(e)` when the mapper throws `e` |
| `RopV2.StickyFailure` | src/main/java/app/quantun/rop/v2/RailwayPattern.java:35-46 | on a failure `flatMap` gives the same result for every mapper (the mapper is not called): a failure with the identical error |
| `RopV2.Associativity` | src/main/java/app/quantun/rop/v2/RailwayPattern.java:35-46 | `p.flatMap(f).flatMap(g)` equals `p.flatMap(x -> f(x).flatMap(g))`, including throwing `f` and `g` |
| `RopV2.RailwayBuilder.constructor` | src/main/java/app/quantun/rop/v2/RailwayBuilder.java:10-12 | a new builder has no steps |
| `RopV2.RailwayBuilder.AddStep` | src/main/java/app/quantun/rop/v2/RailwayBuilder.java:15-18 | exactly one step is appended at the end, earlier steps keep their order, and the same builder is returned |
| `RopV2.RailwayBuilder.Execute` | src/main/java/app/quantun/rop/v2/RailwayBuilder.java:21-35 | the loop with its early return computes the left fold of `flatMap` over the steps from `success(input)` and invokes `Invoked` steps; `steps` is not changed |
| `RopV2.FoldFlatMap` | src/main/java/app/quantun/rop/v2/RailwayBuilder.java:21-35 | what `execute(input)` returns; its properties are `FoldOfFailure`, `FoldAppend`, `FoldSnoc`, `LaterStepsIgnored` and `ThrowingStep` |
| `RopV2.ExecuteFresh` | src/main/java/app/quantun/rop/v2/RailwayBuilder.java:10-12 | `execute(x)` on a new builder is `success(x)` |
| `RopV2.ExecuteTwice` | src/main/java/app/quantun/rop/v2/RailwayBuilder.java:21-35 | two runs with different inputs each give the fold from their own input: no state is kept between runs |
| `RopV2.FoldOfFailure` | src/main/java/app/quantun/rop/v2/RailwayBuilder.java:26-31 | from a failure, the fold returns that failure and invokes no step |
| `RopV2.FoldAppend` | src/main/java/app/quantun/rop/v2/RailwayBuilder.java:21-35 | folding over `a + b` is folding over `a` and then over `b`; the invocation counts add up |
| `RopV2.FoldSnoc` | src/main/java/app/quantun/rop/v2/RailwayBuilder.java:24-34 | steps run in registration order: a step added last is `flatMap`ped onto the outcome of the steps before it |
| `RopV2.InvokedBound` | src/main/java/app/quantun/rop/v2/RailwayBuilder.java:24-34 | at most every step is invoked, and when the result is a success all of them are |
| `RopV2.LaterStepsIgnored` | src/main/java/app/quantun/rop/v2/RailwayBuilder.java:26-31 | once the steps so far yielded a failure, later steps are not invoked and that failure is the result |
| `RopV2.ThrowingStep` | src/main/java/app/quantun/rop/v2/RailwayBuilder.java:26-31 | a step throwing `e` on the running value makes the result `failure(e)` and is the last step invoked |
| `RopV3.Success` | src/main/java/app/quantun/rop/v3/RailwayHandler.java:27-29 | the value/error pair of `success(v)`; stated by `ConstructorsAndQueries` |
| `RopV3.Failure` | src/main/java/app/quantun/rop/v3/RailwayHandler.java:31-33 | the value/error pair of `failure(e)`; stated by `ConstructorsAndQueries` |
| `RopV3.HandlerFields.IsSuccess` | src/main/java/app/quantun/rop/v3/RailwayHandler.java:36-38 | `isSuccess()`: the error is null; stated by `ConstructorsAndQueries`, including `failure(null)` |
| `RopV3.HandlerFields.FlatMap` | src/main/java/app/quantun/rop/v3/RailwayHandler.java:73-83 | `flatMap(mapper)` with its `catch`; stated by `CombinatorsOnSuccess`, `StickyFailure` and `Associativity` |
| `RopV3.HandlerFields.Map` | src/main/java/app/quantun/rop/v3/RailwayHandler.java:86-96 | `map(mapper)` with its `catch`; stated by `CombinatorsOnSuccess`, `StickyFailure`, `MapIsFlatMap` and `MapIdentity` |
| `RopV3.RunSteps` | src/main/java/app/quantun/rop/v3/RailwayHandler.java:55-69 | what `execute()` returns; its properties are `RunIsFoldFlatMap`, `RunAppend`, `RunSnoc`, `LaterStepsIgnored` and `ThrowingStep` |
| `RopV3.RailwayHandler.SuccessHandler` | src/main/java/app/quantun/rop/v3/RailwayHandler.java:27-29 | `success(v)` is a new handler with value `v`, null error and no steps |
| `RopV3.RailwayHandler.FailureHandler` | src/main/java/app/quantun/rop/v3/RailwayHandler.java:31-33 | `failure(e)` is a new handler with null value, error `e` and no steps |
| `RopV3.RailwayHandler.Start` | src/main/java/app/quantun/rop/v3/RailwayHandler.java:23-25 | `start(v)` is a new handler equal to `success(v)` |
| `RopV3.RailwayHandler.AddStep` | src/main/java/app/quantun/rop/v3/RailwayHandler.java:49-52 | exactly one step is appended at the end, earlier steps keep their order, and the same handler is returned |
| `RopV3.RailwayHandler.Execute` | src/main/java/app/quantun/rop/v3/RailwayHandler.java:55-69 | the loop with its early returns and its `catch` computes `RunSteps` from this handler's own value/error and invokes `Invoked` steps; `steps` is not changed |
| `RopV3.ConstructorsAndQueries` | src/main/java/app/quantun/rop/v3/RailwayHandler.java:27-38 | `success(v)` is a success with value `v` and null error; `failure(e)` with non-null `e` is not a success, has null value and error `e`; `failure(null)` reports success |
| `RopV3.CombinatorsOnSuccess` | src/main/java/app/quantun/rop/v3/RailwayHandler.java:73-96 | on success `flatMap` returns `mapper(value)` and `map` returns `success(mapper(value))`; in both a thrown `e` becomes `failure(e)` |
| `RopV3.StickyFailure` | src/main/java/app/quantun/rop/v3/RailwayHandler.java:73-96 | on a failure `flatMap` and `map` give the same result for every mapper (it is not called): a failure with the identical error |
| `RopV3.MapIsFlatMap` | src/main/java/app/quantun/rop/v3/RailwayHandler.java:73-96 | `map(m)` equals `flatMap` of `m` followed by `success`, throws included |
| `RopV3.AndThen` | src/main/java/app/quantun/rop/v3/RailwayHandler.java:73-83 | the composed mapper `x -> f(x).flatMap(g)`; it is the right-hand side of `Associativity` |
| `RopV3.Associativity` | src/main/java/app/quantun/rop/v3/RailwayHandler.java:73-83 | `h.flatMap(f).flatMap(g)` equals `h.flatMap(x -> f(x).flatMap(g))` for every handler, including throwing `f` and `g` |
| `RopV3.MapIdentity` | src/main/java/app/quantun/rop/v3/RailwayHandler.java:86-96 | mapping with the identity gives back an equal handler |
| `RopV3.ReturnsOwnOutcome` | src/main/java/app/quantun/rop/v3/RailwayHandler.java:55-68 | with no steps, or when the handler is already a failure, `execute()` returns the handler's own outcome and invokes no step |
| `RopV3.FoldOfFailure` | src/main/java/app/quantun/rop/v3/RailwayHandler.java:80-82 | folding `flatMap` over a failure gives that failure back |
| `RopV3.RunIsFoldFlatMap` | src/main/java/app/quantun/rop/v3/RailwayHandler.java:55-83 | `execute()`, with its early returns and its own `catch`, equals the plain left fold of `flatMap` over the steps |
| `RopV3.RunAppend` | src/main/java/app/quantun/rop/v3/RailwayHandler.java:57-68 | running `a + b` is running `a`, then `b` from where `a` stopped; the invocation counts add up |
| `RopV3.RunSnoc` | src/main/java/app/quantun/rop/v3/RailwayHandler.java:57-68 | steps run in registration order, each on the previous step's value: a step added last acts on the outcome of the others exactly as `flatMap` does, and its handler is the result |
| `RopV3.InvokedBound` | src/main/java/app/quantun/rop/v3/RailwayHandler.java:57-66 | at most every step is invoked, and when the result is a success all of them are |
| `RopV3.LaterStepsIgnored` | src/main/java/app/quantun/rop/v3/RailwayHandler.java:64-66 | once the running handler is a failure, later steps are not invoked and that same outcome is returned |
| `RopV3.ThrowingStep` | src/main/java/app/quantun/rop/v3/RailwayHandler.java:59-63 | a step throwing `e` on the running value makes `execute()` return `failure(e)`, and no later step runs |
| `UserServiceV4.MockSave` | src/main/java/app/quantun/v4/services/UserService.java:10-16 | the mock `save`: id 1, same name, email with "SAVE" appended; stated by `MappedEntityIsSaved` and `CreateUserWithMock` |
| `UserServiceV4.NewUserService` | src/main/java/app/quantun/v4/services/UserService.java:9-17 | `new UserService()` installs the mock repository; used by `MappedEntityIsSaved` and `CreateUserWithMock` |
| `UserServiceV4.ValidateDTO` | src/main/java/app/quantun/v4/services/UserService.java:30-38 | `validateDTO`; stated by `ValidateOutcomes` and, for a null record, `CreateUserNull` |
| `UserServiceV4.MapToEntity` | src/main/java/app/quantun/v4/services/UserService.java:41-48 | `mapToEntity`; stated by `MappedEntityIsSaved` |
| `UserServiceV4.UserService.SaveEntity` | src/main/java/app/quantun/v4/services/UserService.java:51-58 | `saveEntity` with its `catch`; stated by `MappedEntityIsSaved` and `CreateUserSaves` |
| `UserServiceV4.MapToDTO` | src/main/java/app/quantun/v4/services/UserService.java:61-63 | `mapToDTO`; stated by `CreateUserSaves` (the saved user comes back without its id) |
| `UserServiceV4.UserService.CreateUser` | src/main/java/app/quantun/v4/services/UserService.java:20-27 | `createUser`; stated by `CreateUserSaves`, `CreateUserWithMock`, `CreateUserRejects` and `CreateUserNull` |
| `UserServiceV4.ValidateOutcomes` | src/main/java/app/quantun/v4/services/UserService.java:30-38 | a null or empty name fails with "Name cannot be null or empty" whatever the email; with a good name, a null email or one without '@' fails with "Invalid email address"; the record passes unchanged if and only if both are valid |
| `UserServiceV4.CreateUserSaves` | src/main/java/app/quantun/v4/services/UserService.java:20-63 | on a valid record the repository receives the entity with a null id and the same name and email; a throw from it becomes the failure; the saved user comes back as a record without its id |
| `UserServiceV4.MappedEntityIsSaved` | src/main/java/app/quantun/v4/services/UserService.java:10-58 | `mapToEntity` gives the same name and email with a null id; after it, `saveEntity` with the mock succeeds with id 1, the same name, and the email with "SAVE" appended (Java writes a null email as "null") |
| `UserServiceV4.CreateUserWithMock` | src/main/java/app/quantun/v4/services/UserService.java:9-27 | with the mock repository a valid record yields success with the same name and the email with "SAVE" appended |
| `UserServiceV4.CreateUserRejects` | src/main/java/app/quantun/v4/services/UserService.java:20-38 | an invalid record yields its validation failure (the name error first) whatever the repository does: mapping and saving are never reached |
| `UserServiceV4.CreateUserNull` | src/main/java/app/quantun/v4/services/UserService.java:20-38 | a null record yields a failure carrying the NullPointerException `validateDTO` throws |
| `Demos.ValidateNumberV2` | src/main/java/app/quantun/Main.java:95-101 | `demo2`'s `validateNumber`; exercised by `Demo2` |
| `Demos.MultiplyByTwoV2` | src/main/java/app/quantun/Main.java:103-104 | `demo2`'s `multiplyByTwo`; exercised by `Demo2` |
| `Demos.SubtractFiveV2` | src/main/java/app/quantun/Main.java:106-107 | `demo2`'s `subtractFive`; exercised by `Demo2` |
| `Demos.Demo2` | src/main/java/app/quantun/Main.java:110-116 | a builder with validate, double and subtract five: `execute(0)` is the "Number must be positive" failure with one step invoked; `execute(5)` is success 5 with all three invoked |
| `Demos.ValidateNumberV3` | src/main/java/app/quantun/Main.java:16-22 | the static `validateNumber`; exercised by `Demo3` |
| `Demos.MultiplyByTwoV3` | src/main/java/app/quantun/Main.java:72-73 | `demo3`'s `multiplyByTwo`; exercised by `Demo3` |
| `Demos.SubtractFiveV3` | src/main/java/app/quantun/Main.java:75-76 | `demo3`'s `subtractFive`; exercised by `Demo3` |
| `Demos.Demo3` | src/main/java/app/quantun/Main.java:80-85 | `start(10)` with validate, double and subtract five gives success 15 with all three steps invoked; from -3 the failure with one step invoked |

## Left out

- Object identity: `execute()`, `flatMap` and `map` return the value/error pair of a handler,
  not a handler object. "Returns this" and "returns the same handler" are stated as equality
  of that pair with the handler's own. Steps return outcome values, because Dafny functions
  cannot allocate objects. So the step list of a handler returned by a step is not modelled.
- A step, operation or mapper that returns a null handler or result. In versions 2 and 3 a
  null from the last step is what `execute()` returns, and `flatMap` passes a mapper's null
  straight through; a null from an earlier step makes the next `isSuccess()` raise a
  NullPointerException outside any `try`. In version 1 a null result raises it at the `getValue()` call on line 30.
  The model's steps always return a value.
- Steps, operations, mappers and the repository are pure, deterministic Dafny functions: side
  effects and non-determinism are not captured. `RopV1.ExecuteTwice` giving equal results,
  and reading `StickyFailure`'s independence of the mapper as "the mapper is not called",
  rely on this.
- Version 1 operations are total: `execute()` there catches nothing, so a throwing operation
  would escape, and that propagation is not expressed.
- The `catch` in `saveEntity`: the model catches every throwable from `save`, where the source catches only
  `Exception`. An `Error` would instead pass to `flatMap`, which turns it into the same
  failure, so `createUser` gives the same result.
- `mapToEntity` and `saveEntity` catch only exceptions that the shown mock never raises on a
  validated record. The null-record cases are modelled, though they cannot be reached through
  `createUser`.
- Exception detail: stack traces, subclassing and the JVM's NullPointerException message text
  (its message is left as null).
- `Main.java`: console output, and `demo4` with its `double` arithmetic. Its integer demos use
  unbounded integers; the values stay far from 32-bit wrap-around.
- `Operation.java` is the type synonym `RopV1.Operation`, not a module of its own.
- `LinkedList`/`ArrayList`, generic variance and type erasure: step lists are sequences.
- `User.id` is a `Long`; it is modelled as an unbounded integer (only the value 1 occurs).
