/** The demo pipelines of `Main`, over unbounded integers, as concrete runs of the builders. */
module Demos {
  import opened JavaLang
  import RopV2
  import RopV3

  const PositiveError: Throwable := IllegalArgument("Number must be positive")

  /** `validateNumber` for version 2: positive numbers pass; unboxing a null `Integer` throws. */
  function ValidateNumberV2(n: Option<int>): Call<RopV2.RailwayPattern<int>>
  {
    match n
    case None => Threw(NullPointer)
    case Some(x) => Returned(if x > 0 then RopV2.Success(n) else RopV2.Failure(Some(PositiveError)))
  }

  /** `multiplyByTwo` for version 2. */
  function MultiplyByTwoV2(n: Option<int>): Call<RopV2.RailwayPattern<int>>
  {
    match n
    case None => Threw(NullPointer)
    case Some(x) => Returned(RopV2.Success(Some(x * 2)))
  }

  /** `subtractFive` for version 2. */
  function SubtractFiveV2(n: Option<int>): Call<RopV2.RailwayPattern<int>>
  {
    match n
    case None => Threw(NullPointer)
    case Some(x) => Returned(RopV2.Success(Some(x - 5)))
  }

  /** `demo2`: a builder with validate, double and subtract five. `execute(0)` gives the
      "Number must be positive" failure after invoking only the first step; `execute(5)` runs
      all three steps and gives success 5. */
  method Demo2() returns (zero: RopV2.RailwayPattern<int>, ghost zeroInvoked: nat,
                          five: RopV2.RailwayPattern<int>, ghost fiveInvoked: nat)
    ensures zero == RopV2.Failure(Some(PositiveError)) && zeroInvoked == 1
    ensures five == RopV2.Success(Some(5)) && fiveInvoked == 3
  {
    var b := new RopV2.RailwayBuilder<int>();
    b := b.AddStep(ValidateNumberV2);
    b := b.AddStep(MultiplyByTwoV2);
    b := b.AddStep(SubtractFiveV2);
    assert b.steps == [ValidateNumberV2, MultiplyByTwoV2, SubtractFiveV2];
    assert b.steps[1..] == [MultiplyByTwoV2, SubtractFiveV2];
    assert b.steps[1..][1..] == [SubtractFiveV2] && b.steps[1..][1..][1..] == [];
    var rejected := RopV2.Success(Some(0)).FlatMap(b.steps[0]);
    assert rejected == RopV2.Failure(Some(PositiveError));
    RopV2.FoldOfFailure(rejected, b.steps[1..]);
    assert b.steps[0](Some(5)) == Returned(RopV2.Success(Some(5)));
    assert b.steps[1..][0](Some(5)) == Returned(RopV2.Success(Some(10)));
    assert b.steps[1..][1..][0](Some(10)) == Returned(RopV2.Success(Some(5)));
    assert RopV2.FoldFlatMap(RopV2.Success(Some(10)), b.steps[1..][1..]) == RopV2.Success(Some(5));
    assert RopV2.FoldFlatMap(RopV2.Success(Some(5)), b.steps[1..]) == RopV2.Success(Some(5));
    assert RopV2.Invoked(RopV2.Success(Some(10)), b.steps[1..][1..]) == 1;
    assert RopV2.Invoked(RopV2.Success(Some(5)), b.steps[1..]) == 2;
    zero, zeroInvoked := b.Execute(Some(0));
    five, fiveInvoked := b.Execute(Some(5));
  }

  /** `validateNumber` for version 3. */
  function ValidateNumberV3(n: Option<int>): Call<RopV3.Outcome<int>>
  {
    match n
    case None => Threw(NullPointer)
    case Some(x) => Returned(if x > 0 then RopV3.Success(n) else RopV3.Failure(Some(PositiveError)))
  }

  /** `multiplyByTwo` for version 3 (the integer one of `demo3`). */
  function MultiplyByTwoV3(n: Option<int>): Call<RopV3.Outcome<int>>
  {
    match n
    case None => Threw(NullPointer)
    case Some(x) => Returned(RopV3.Success(Some(x * 2)))
  }

  /** `subtractFive` for version 3. */
  function SubtractFiveV3(n: Option<int>): Call<RopV3.Outcome<int>>
  {
    match n
    case None => Threw(NullPointer)
    case Some(x) => Returned(RopV3.Success(Some(x - 5)))
  }

  /** `demo3`: `start(10)` with validate, double and subtract five gives success 15 after all
      three steps; started from -3 the run stops at validation after one step. */
  method Demo3() returns (ten: RopV3.Outcome<int>, ghost tenInvoked: nat,
                          minusThree: RopV3.Outcome<int>, ghost minusThreeInvoked: nat)
    ensures ten == RopV3.Success(Some(15)) && tenInvoked == 3
    ensures minusThree == RopV3.Failure(Some(PositiveError)) && minusThreeInvoked == 1
  {
    var h := RopV3.RailwayHandler.Start(Some(10));
    h := h.AddStep(ValidateNumberV3);
    h := h.AddStep(MultiplyByTwoV3);
    h := h.AddStep(SubtractFiveV3);
    assert h.steps == [ValidateNumberV3, MultiplyByTwoV3, SubtractFiveV3];
    assert h.steps[1..] == [MultiplyByTwoV3, SubtractFiveV3];
    assert h.steps[1..][1..] == [SubtractFiveV3] && h.steps[1..][1..][1..] == [];
    assert h.steps[0](Some(10)) == Returned(RopV3.Success(Some(10)));
    assert h.steps[1..][0](Some(10)) == Returned(RopV3.Success(Some(20)));
    assert h.steps[1..][1..][0](Some(20)) == Returned(RopV3.Success(Some(15)));
    assert RopV3.RunSteps(RopV3.Success(Some(20)), h.steps[1..][1..]) == RopV3.Success(Some(15));
    assert RopV3.RunSteps(RopV3.Success(Some(10)), h.steps[1..]) == RopV3.Success(Some(15));
    assert RopV3.Invoked(RopV3.Success(Some(20)), h.steps[1..][1..]) == 1;
    assert RopV3.Invoked(RopV3.Success(Some(10)), h.steps[1..]) == 2;
    ten, tenInvoked := h.Execute();

    var g := RopV3.RailwayHandler.Start(Some(-3));
    g := g.AddStep(ValidateNumberV3);
    g := g.AddStep(MultiplyByTwoV3);
    g := g.AddStep(SubtractFiveV3);
    assert g.steps == [ValidateNumberV3, MultiplyByTwoV3, SubtractFiveV3];
    assert g.steps[1..] == [MultiplyByTwoV3, SubtractFiveV3];
    assert g.steps[0](Some(-3)) == Returned(RopV3.Failure(Some(PositiveError)));
    RopV3.ReturnsOwnOutcome(RopV3.Failure(Some(PositiveError)), g.steps[1..]);
    minusThree, minusThreeInvoked := g.Execute();
  }
}
