/** The `autoregress(lambda, backward_offset, initial_value)` SQL function:
    argument validation, type resolution and the blocked evaluation loop. */
module Autoregress {
  import opened Wrappers

  /** The data types the function distinguishes; every other type is `Other`. */
  datatype DataType =
    | UInt8
    | UInt64
    | Int64
    | Float64
    | Function(arguments: seq<DataType>, result: DataType)
    | Other(name: string)

  /** Why an argument was refused; every case is raised as ILLEGAL_TYPE_OF_ARGUMENT. */
  datatype Reason =
    | NotLambda                       // argument 1 is not a lambda expression
    | StepNotUInt8                    // argument 2 is not UInt8
    | InitialNotInt64OrFloat64        // argument 3 is neither Int64 nor Float64
    | LambdaResultMismatch(returned: DataType, expected: DataType)

  /** ILLEGAL_TYPE_OF_ARGUMENT with its reason, or BAD_ARGUMENTS for a
      backward step of 0, which the evaluation loop cannot advance over. */
  datatype Error = IllegalTypeOfArgument(reason: Reason) | ZeroBackwardStep

  /** The column type of the backward step: one unsigned byte per row. */
  newtype uint8 = x: int | 0 <= x < 0x100

  function Min(a: nat, b: nat): nat { if a < b then a else b }

  predicate IsInitialValueType(t: DataType) { t == Int64 || t == Float64 }

  /** The three argument types the function accepts. */
  predicate WellTyped(arguments: seq<DataType>)
    requires |arguments| == 3
  {
    arguments[0].Function? && arguments[1] == UInt8 && IsInitialValueType(arguments[2])
  }

  /** `checkArguments`: the checks run in argument order and the first one
      that fails names its argument. The resolver declares three arguments,
      so the framework always passes exactly three types. */
  function CheckArguments(arguments: seq<DataType>): (r: Outcome<Error>)
    requires |arguments| == 3
    ensures r.Pass? <==> WellTyped(arguments)
    ensures !arguments[0].Function? ==> r == Fail(IllegalTypeOfArgument(NotLambda))
    ensures arguments[0].Function? && arguments[1] != UInt8 ==>
              r == Fail(IllegalTypeOfArgument(StepNotUInt8))
    ensures arguments[0].Function? && arguments[1] == UInt8 && !IsInitialValueType(arguments[2]) ==>
              r == Fail(IllegalTypeOfArgument(InitialNotInt64OrFloat64))
  {
    if !arguments[0].Function? then Fail(IllegalTypeOfArgument(NotLambda))
    else if arguments[1] != UInt8 then Fail(IllegalTypeOfArgument(StepNotUInt8))
    else if !IsInitialValueType(arguments[2]) then Fail(IllegalTypeOfArgument(InitialNotInt64OrFloat64))
    else Pass
  }

  /** `getReturnTypeImpl`: the result has the type of the initial value. */
  function GetReturnType(arguments: seq<DataType>): (r: Result<DataType, Error>)
    requires |arguments| == 3
    ensures r.Success? <==> WellTyped(arguments)
    ensures r.Success? ==> r.value == arguments[2] && IsInitialValueType(r.value)
    ensures r.Failure? ==> CheckArguments(arguments) == Fail(r.error)
  {
    match CheckArguments(arguments)
    case Fail(e) => Failure(e)
    case Pass => Success(arguments[2])
  }

  /** `getLambdaArgumentTypesImpl`: after the check, the lambda's type becomes
      `Function(T) -> T` for the type T of the initial value; the rewritten
      list still passes the check that `buildImpl` repeats. */
  function GetLambdaArgumentTypes(arguments: seq<DataType>): (r: Result<seq<DataType>, Error>)
    requires |arguments| == 3
    ensures r.Success? <==> WellTyped(arguments)
    ensures r.Success? ==>
              && |r.value| == 3
              && r.value[0] == Function([arguments[2]], arguments[2])
              && r.value[1..] == arguments[1..]
              && CheckArguments(r.value) == Pass
              && GetReturnType(r.value) == GetReturnType(arguments)
    ensures r.Failure? ==> CheckArguments(arguments) == Fail(r.error)
  {
    match CheckArguments(arguments)
    case Fail(e) => Failure(e)
    case Pass => Success([Function([arguments[2]], arguments[2]), arguments[1], arguments[2]])
  }

  /** The value of row `k`: row k's lambda applied to the input of row k.
      `f(k, x)` is the lambda of row k (with the columns it captured at row k)
      applied to `x`. */
  function RowValue<T>(f: (nat, T) -> T, step: nat, initial: seq<T>, k: nat): T
    requires step >= 1 && k < |initial|
    decreases k, 1
  {
    f(k, RowInput(f, step, initial, k))
  }

  /** The input of row `k`: the initial value of row k for the first `step`
      rows, and the value `step` rows back afterwards. */
  function RowInput<T>(f: (nat, T) -> T, step: nat, initial: seq<T>, k: nat): T
    requires step >= 1 && k < |initial|
    decreases k, 0
  {
    if k < step then initial[k] else RowValue(f, step, initial, k - step)
  }

  /** `ExecutableFunctionAutoregress::executeImpl`: an empty column gives an
      empty result; otherwise the step is read from row 0 of its column and
      the rows are evaluated block by block (`EvaluateBlocks`). A step of 0
      is refused before the loop, which would otherwise never advance
      (`StepZeroNeverAdvances`). The ghost `blocks` holds the size of every
      block the loop processes. */
  method Execute<T>(f: (nat, T) -> T, lambdaResultType: DataType, resultType: DataType,
                    stepColumn: seq<uint8>, initial: seq<T>, inputRowsCount: nat)
    returns (r: Result<seq<T>, Error>, ghost blocks: seq<nat>)
    requires |stepColumn| == inputRowsCount && |initial| == inputRowsCount
    ensures inputRowsCount == 0 ==> r == Success([])
    ensures inputRowsCount > 0 && stepColumn[0] == 0 ==> r == Failure(ZeroBackwardStep)
    ensures inputRowsCount > 0 && stepColumn[0] >= 1 && lambdaResultType != resultType ==>
              r == Failure(IllegalTypeOfArgument(LambdaResultMismatch(lambdaResultType, resultType)))
    ensures inputRowsCount > 0 && stepColumn[0] >= 1 && lambdaResultType == resultType ==> r.Success?
    ensures r.Success? ==> |r.value| == inputRowsCount
    ensures r.Success? && inputRowsCount > 0 ==>
              && stepColumn[0] >= 1
              && blocks == BlockSizes(inputRowsCount, stepColumn[0] as nat, 0)
              && forall k :: 0 <= k < inputRowsCount ==>
                   r.value[k] == RowValue(f, stepColumn[0] as nat, initial, k)
    ensures r.Success? && inputRowsCount > 0 ==>
              var step := stepColumn[0] as nat;
              && (forall k :: 0 <= k < inputRowsCount && k < step ==> r.value[k] == f(k, initial[k]))
              && (forall k :: step <= k < inputRowsCount ==> r.value[k] == f(k, r.value[k - step]))
  {
    blocks := [];
    var n := inputRowsCount;
    if n == 0 {
      return Success([]), blocks;
    }
    var step := stepColumn[0] as nat;
    if step == 0 {
      return Failure(ZeroBackwardStep), blocks;
    }
    r, blocks := EvaluateBlocks(f, lambdaResultType, resultType, step, initial);
    if r.Success? {
      RowValuesMeetRecurrence(f, step, initial, r.value);
    }
  }

  /** The loop of `executeImpl` over a non-empty column with a positive step.
      It handles `step` rows at a time: it applies the lambdas of rows
      i .. i+size-1 to the current inputs, appends the block's results to
      the result column and makes the first rows of the block's results the
      inputs of the next block: each iteration is one `LoopPass`, and keeps
      `PassInvariant`. The result rows are the row values and `blocks` the
      sizes of the blocks processed, unless the lambda's result type is
      refused on the first block. */
  method EvaluateBlocks<T>(f: (nat, T) -> T, lambdaResultType: DataType, resultType: DataType,
                           step: nat, initial: seq<T>)
    returns (r: Result<seq<T>, Error>, ghost blocks: seq<nat>)
    requires step >= 1 && |initial| > 0
    ensures lambdaResultType != resultType ==>
              r == Failure(IllegalTypeOfArgument(LambdaResultMismatch(lambdaResultType, resultType)))
    ensures lambdaResultType == resultType ==>
              && r.Success? && |r.value| == |initial|
              && blocks == BlockSizes(|initial|, step, 0)
              && forall k :: 0 <= k < |initial| ==> r.value[k] == RowValue(f, step, initial, k)
  {
    blocks := [];
    var n := |initial|;
    var lambdaInputs := initial[..Min(step, n)];
    var res: seq<T> := [];
    var i := 0;
    while i < n
      invariant lambdaResultType != resultType ==> i == 0
      invariant PassInvariant(f, step, initial, LoopState(i, lambdaInputs, res))
      invariant i < n ==> ProcessedBlocks(blocks, n, step, i)
      invariant i >= n ==> blocks == BlockSizes(n, step, 0)
      decreases n - i
    {
      var blockSize := |lambdaInputs|;
      var blockResult := BlockResults(f, i, lambdaInputs);
      if lambdaResultType != resultType {
        return Failure(IllegalTypeOfArgument(LambdaResultMismatch(lambdaResultType, resultType))), blocks;
      }
      ghost var before := LoopState(i, lambdaInputs, res);
      LoopPassKeepsRows(f, step, initial, before);
      res := res + blockResult;
      NextBlock(blocks, n, step, i);
      blocks := blocks + [blockSize];
      if n > i + step {
        lambdaInputs := blockResult[..Min(step, n - i - step)];
      }
      i := i + step;
      assert LoopState(i, lambdaInputs, res) == LoopPass(f, n, step, before);
    }
    return Success(res), blocks;
  }

  /** The results of one block: the lambda of row `i + j` applied to the
      block's input `j`, for every input of the block. */
  function BlockResults<T>(f: (nat, T) -> T, i: nat, inputs: seq<T>): (r: seq<T>)
    ensures |r| == |inputs|
    ensures forall j :: 0 <= j < |inputs| ==> r[j] == f(i + j, inputs[j])
  {
    seq(|inputs|, j requires 0 <= j < |inputs| => f(i + j, inputs[j]))
  }

  /** The loop of `executeImpl` as written, one pass at a time, for a lambda
      whose result type matches: the block is the current inputs, its
      results are appended, and `i` moves on by the step. */
  datatype LoopState<T> = LoopState(i: nat, lambdaInputs: seq<T>, res: seq<T>)

  /** The shape the loop keeps: as many inputs as the next block has rows. */
  predicate InputsFitBlock<T>(n: nat, step: nat, s: LoopState<T>)
  {
    s.i < n ==> |s.lambdaInputs| == Min(step, n - s.i)
  }

  function LoopPass<T>(f: (nat, T) -> T, n: nat, step: nat, s: LoopState<T>): (t: LoopState<T>)
    requires s.i < n && InputsFitBlock(n, step, s)
    ensures InputsFitBlock(n, step, t)
    ensures t.i == s.i + step
    ensures |t.res| == |s.res| + |s.lambdaInputs|
    ensures t.res[..|s.res|] == s.res
    ensures forall j :: 0 <= j < |s.lambdaInputs| ==> t.res[|s.res| + j] == f(s.i + j, s.lambdaInputs[j])
    ensures n > s.i + step ==> t.lambdaInputs == t.res[|s.res|..][..Min(step, n - s.i - step)]
    ensures n <= s.i + step ==> t.lambdaInputs == s.lambdaInputs
  {
    var blockResult := BlockResults(f, s.i, s.lambdaInputs);
    var next := if n > s.i + step then blockResult[..Min(step, n - s.i - step)] else s.lambdaInputs;
    LoopState(s.i + step, next, s.res + blockResult)
  }

  /** The state after `passes` passes, as long as the loop condition holds. */
  function LoopPasses<T>(f: (nat, T) -> T, n: nat, step: nat, s: LoopState<T>, passes: nat): LoopState<T>
    requires InputsFitBlock(n, step, s)
    decreases passes
  {
    if passes == 0 || s.i >= n then s else LoopPasses(f, n, step, LoopPass(f, n, step, s), passes - 1)
  }

  /** What the loop as written keeps from pass to pass: the rows produced so
      far are the row values, and the inputs are those of the next block. */
  ghost predicate PassInvariant<T>(f: (nat, T) -> T, step: nat, initial: seq<T>, s: LoopState<T>)
    requires step >= 1
  {
    && |s.res| == Min(s.i, |initial|)
    && (forall k :: 0 <= k < |s.res| ==> s.res[k] == RowValue(f, step, initial, k))
    && (s.i < |initial| ==>
          && |s.lambdaInputs| == Min(step, |initial| - s.i)
          && forall j :: 0 <= j < |s.lambdaInputs| ==> s.lambdaInputs[j] == RowInput(f, step, initial, s.i + j))
  }

  /** One pass keeps `PassInvariant`. */
  lemma LoopPassKeepsRows<T>(f: (nat, T) -> T, step: nat, initial: seq<T>, s: LoopState<T>)
    requires step >= 1 && s.i < |initial| && PassInvariant(f, step, initial, s)
    ensures PassInvariant(f, step, initial, LoopPass(f, |initial|, step, s))
  {
    PassAppendsRowValues(f, step, initial, s);
    PassFeedsNextInputs(f, step, initial, s);
  }

  /** The rows a pass appends are the row values of its block. */
  lemma PassAppendsRowValues<T>(f: (nat, T) -> T, step: nat, initial: seq<T>, s: LoopState<T>)
    requires step >= 1 && s.i < |initial| && |s.res| == s.i
    requires |s.lambdaInputs| == Min(step, |initial| - s.i)
    requires forall k :: 0 <= k < |s.res| ==> s.res[k] == RowValue(f, step, initial, k)
    requires forall j :: 0 <= j < |s.lambdaInputs| ==> s.lambdaInputs[j] == RowInput(f, step, initial, s.i + j)
    ensures var t := LoopPass(f, |initial|, step, s);
            && |t.res| == Min(t.i, |initial|)
            && forall k :: 0 <= k < |t.res| ==> t.res[k] == RowValue(f, step, initial, k)
  {
    var block := BlockResults(f, s.i, s.lambdaInputs);
    assert LoopPass(f, |initial|, step, s).res == s.res + block;
    BlockValues(f, step, initial, s.i, s.lambdaInputs);
    AppendBlock(f, step, initial, s.res, block);
  }

  /** The inputs a pass leaves for the next block are that block's inputs. */
  lemma PassFeedsNextInputs<T>(f: (nat, T) -> T, step: nat, initial: seq<T>, s: LoopState<T>)
    requires step >= 1 && s.i < |initial| && |s.lambdaInputs| == Min(step, |initial| - s.i)
    requires forall j :: 0 <= j < |s.lambdaInputs| ==> s.lambdaInputs[j] == RowInput(f, step, initial, s.i + j)
    ensures var t := LoopPass(f, |initial|, step, s);
            t.i < |initial| ==>
              && |t.lambdaInputs| == Min(step, |initial| - t.i)
              && forall j :: 0 <= j < |t.lambdaInputs| ==> t.lambdaInputs[j] == RowInput(f, step, initial, t.i + j)
  {
    var n := |initial|;
    var block := BlockResults(f, s.i, s.lambdaInputs);
    var t := LoopPass(f, n, step, s);
    if t.i < n {
      assert t.i == s.i + step;
      assert t.lambdaInputs == block[..Min(step, n - t.i)];
      forall j | 0 <= j < |t.lambdaInputs|
        ensures t.lambdaInputs[j] == RowInput(f, step, initial, t.i + j)
      {
        calc {
          t.lambdaInputs[j];
          block[j];
          f(s.i + j, s.lambdaInputs[j]);
          f(s.i + j, RowInput(f, step, initial, s.i + j));
          RowValue(f, step, initial, s.i + j);
          RowInput(f, step, initial, s.i + step + j);
        }
      }
    }
  }

  /** With a positive step, the loop as written ends within `n` passes, and
      its result rows are the row values: the same rows `EvaluateBlocks`
      produces. */
  lemma {:induction false} LoopPassesComputeRows<T>(
    f: (nat, T) -> T, step: nat, initial: seq<T>, s: LoopState<T>, passes: nat)
    requires step >= 1 && PassInvariant(f, step, initial, s) && s.i + passes >= |initial|
    ensures var t := LoopPasses(f, |initial|, step, s, passes);
            && t.i >= |initial| && |t.res| == |initial|
            && forall k :: 0 <= k < |initial| ==> t.res[k] == RowValue(f, step, initial, k)
    decreases passes
  {
    if s.i < |initial| {
      LoopPassKeepsRows(f, step, initial, s);
      LoopPassesComputeRows(f, step, initial, LoopPass(f, |initial|, step, s), passes - 1);
    }
  }

  /** From the loop's first state, `n` passes of the loop as written with a
      positive step leave the loop with every row equal to its row value. */
  lemma LoopAsWrittenComputesRowValues<T>(f: (nat, T) -> T, step: nat, initial: seq<T>)
    requires step >= 1
    ensures var t := LoopPasses(f, |initial|, step, LoopState(0, initial[..Min(step, |initial|)], []), |initial|);
            && t.i >= |initial| && |t.res| == |initial|
            && forall k :: 0 <= k < |initial| ==> t.res[k] == RowValue(f, step, initial, k)
  {
    LoopPassesComputeRows(f, step, initial, LoopState(0, initial[..Min(step, |initial|)], []), |initial|);
  }

  /** With a step of 0 the loop as written never ends on a non-empty column:
      the inputs are the empty prefix of the initial column, every pass
      processes an empty block, and after any number of passes `i` is still
      0, so the condition `i < input_rows_count` still holds and nothing has
      been produced. */
  lemma {:induction false} StepZeroNeverAdvances<T>(f: (nat, T) -> T, initial: seq<T>, passes: nat)
    requires |initial| > 0
    ensures var s := LoopPasses(f, |initial|, 0, LoopState(0, initial[..Min(0, |initial|)], []), passes);
            s.i == 0 < |initial| && s.res == [] && s.lambdaInputs == []
    decreases passes
  {
    var s0 := LoopState(0, initial[..Min(0, |initial|)], []);
    assert s0.lambdaInputs == [];
    if passes > 0 {
      assert LoopPass(f, |initial|, 0, s0) == s0;
      StepZeroNeverAdvances(f, initial, passes - 1);
    }
  }

  /** The lambdas of a block applied to its inputs give the block's rows, and
      each of those rows is the input of the row `step` further on. */
  lemma BlockValues<T>(f: (nat, T) -> T, step: nat, initial: seq<T>, i: nat, inputs: seq<T>)
    requires step >= 1 && i + |inputs| <= |initial|
    requires forall j :: 0 <= j < |inputs| ==> inputs[j] == RowInput(f, step, initial, i + j)
    ensures forall j :: 0 <= j < |inputs| ==> f(i + j, inputs[j]) == RowValue(f, step, initial, i + j)
    ensures forall j :: 0 <= j < |inputs| && i + step + j < |initial| ==>
              f(i + j, inputs[j]) == RowInput(f, step, initial, i + step + j)
  {
  }

  /** Appending a block's rows to the rows before it keeps every row equal to
      its value. */
  lemma AppendBlock<T>(f: (nat, T) -> T, step: nat, initial: seq<T>, res: seq<T>, block: seq<T>)
    requires step >= 1 && |res| + |block| <= |initial|
    requires forall k :: 0 <= k < |res| ==> res[k] == RowValue(f, step, initial, k)
    requires forall j :: 0 <= j < |block| ==> block[j] == RowValue(f, step, initial, |res| + j)
    ensures forall k :: 0 <= k < |res + block| ==> (res + block)[k] == RowValue(f, step, initial, k)
  {
    forall k | |res| <= k < |res + block|
      ensures (res + block)[k] == RowValue(f, step, initial, k)
    {
      assert (res + block)[k] == block[k - |res|];
    }
  }

  /** The row values meet the recurrence: the first `step` rows apply their
      lambdas to the initial values, every later row to the row `step` back. */
  lemma RowValuesMeetRecurrence<T>(f: (nat, T) -> T, step: nat, initial: seq<T>, out: seq<T>)
    requires step >= 1 && |out| == |initial|
    requires forall k :: 0 <= k < |out| ==> out[k] == RowValue(f, step, initial, k)
    ensures forall k :: 0 <= k < |out| && k < step ==> out[k] == f(k, initial[k])
    ensures forall k :: step <= k < |out| ==> out[k] == f(k, out[k - step])
  {
    forall k | 0 <= k < |out| && k < step
      ensures out[k] == f(k, initial[k])
    {
      assert out[k] == f(k, RowInput(f, step, initial, k));
    }
    forall k | step <= k < |out|
      ensures out[k] == f(k, out[k - step])
    {
      assert out[k] == f(k, RowInput(f, step, initial, k));
    }
  }

  /** Only the first `min(step, n)` initial values are ever read: two initial
      columns that agree there give the same result rows. */
  lemma {:induction false} OnlyLeadingInitialValuesRead<T>(
    f: (nat, T) -> T, step: nat, a: seq<T>, b: seq<T>, k: nat)
    requires step >= 1 && |a| == |b| && k < |a|
    requires forall j :: 0 <= j < |a| && j < step ==> a[j] == b[j]
    ensures RowValue(f, step, a, k) == RowValue(f, step, b, k)
    decreases k
  {
    if k >= step {
      OnlyLeadingInitialValuesRead(f, step, a, b, k - step);
    }
  }

  /** The recurrence of `Execute`'s contract determines the result column:
      any column that meets it is the one `RowValue` describes. */
  lemma {:induction false} RecurrenceDeterminesResult<T>(
    f: (nat, T) -> T, step: nat, initial: seq<T>, out: seq<T>, k: nat)
    requires step >= 1 && |out| == |initial| && k < |out|
    requires forall j :: 0 <= j < |out| && j < step ==> out[j] == f(j, initial[j])
    requires forall j :: step <= j < |out| ==> out[j] == f(j, out[j - step])
    ensures out[k] == RowValue(f, step, initial, k)
    decreases k
  {
    if k >= step {
      RecurrenceDeterminesResult(f, step, initial, out, k - step);
    }
  }

  /** The sizes of the blocks the loop processes from row `i` on. */
  function BlockSizes(n: nat, step: nat, i: nat): seq<nat>
    requires step >= 1 && i <= n
    decreases n - i
  {
    if i == n then []
    else [Min(step, n - i)] + BlockSizes(n, step, Min(i + step, n))
  }

  /** The blocks from row `i` on: there is none exactly when no row is left,
      the first has `min(step, n - i)` rows, each has between 1 and `step`
      rows, and together they cover the remaining rows. */
  lemma {:induction false} BlockSizesCoverRows(n: nat, step: nat, i: nat)
    requires step >= 1 && i <= n
    ensures var sizes := BlockSizes(n, step, i);
            && (sizes == [] <==> i == n)
            && (i < n ==> sizes[0] == Min(step, n - i))
            && (forall j :: 0 <= j < |sizes| ==> 1 <= sizes[j] <= step)
            && Sum(sizes) == n - i
    decreases n - i
  {
    if i < n {
      BlockSizesCoverRows(n, step, Min(i + step, n));
      var sizes := BlockSizes(n, step, i);
      assert sizes[1..] == BlockSizes(n, step, Min(i + step, n));
    }
  }

  function Sum(s: seq<nat>): nat
  {
    if s == [] then 0 else s[0] + Sum(s[1..])
  }

  /** `blocks` are the blocks before row `i`: followed by the blocks from row
      `i` on, they are all the blocks of the column. */
  ghost predicate ProcessedBlocks(blocks: seq<nat>, n: nat, step: nat, i: nat)
    requires step >= 1 && i <= n
  {
    blocks + BlockSizes(n, step, i) == BlockSizes(n, step, 0)
  }

  /** One more block processed: its size joins the processed ones and the
      rest starts `step` rows further on. */
  lemma NextBlock(blocks: seq<nat>, n: nat, step: nat, i: nat)
    requires step >= 1 && i < n
    requires ProcessedBlocks(blocks, n, step, i)
    ensures i + step < n ==> ProcessedBlocks(blocks + [Min(step, n - i)], n, step, i + step)
    ensures i + step >= n ==> blocks + [Min(step, n - i)] == BlockSizes(n, step, 0)
  {
    assert BlockSizes(n, step, i) == [Min(step, n - i)] + BlockSizes(n, step, Min(i + step, n));
  }

  /** `g` applied `times` times to `x`. */
  function Iterate<T>(g: T -> T, times: nat, x: T): T
  {
    if times == 0 then x else g(Iterate(g, times - 1, x))
  }

  /** With step 1 and a lambda that ignores the row, row k is the lambda
      applied k + 1 times to the first initial value. */
  lemma {:induction false} StepOneIterates<T>(f: (nat, T) -> T, g: T -> T, initial: seq<T>, k: nat)
    requires forall row: nat, x: T :: f(row, x) == g(x)
    requires k < |initial|
    ensures RowValue(f, 1, initial, k) == Iterate(g, k + 1, initial[0])
    decreases k
  {
    if k > 0 {
      StepOneIterates(f, g, initial, k - 1);
    }
  }

  /** The documented example `autoregress(x -> x + 1.25, 1, 100)` over five
      rows, counted in quarters so that it stays in integers: 100 is 400 and
      1.25 is 5, and [101.25, 102.5, 103.75, 105, 106.25] is
      [405, 410, 415, 420, 425]. */
  lemma DocumentedExampleInQuarters(f: (nat, int) -> int, initial: seq<int>)
    requires forall row: nat, x: int :: f(row, x) == x + 5
    requires initial == [400, 400, 400, 400, 400]
    ensures forall k :: 0 <= k < 5 ==> RowValue(f, 1, initial, k) == [405, 410, 415, 420, 425][k]
  {
    var g := (x: int) => x + 5;
    forall k | 0 <= k < 5
      ensures RowValue(f, 1, initial, k) == 400 + 5 * (k + 1)
    {
      StepOneIterates(f, g, initial, k);
      IterateAdds(g, k + 1);
    }
  }

  lemma {:induction false} IterateAdds(g: int -> int, times: nat)
    requires forall x :: g(x) == x + 5
    ensures Iterate(g, times, 400) == 400 + 5 * times
  {
    if times > 0 {
      IterateAdds(g, times - 1);
    }
  }
}
