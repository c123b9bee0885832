# Verified model of four ClickHouse components

This project models four small pieces of the ClickHouse code base in Dafny and proves what each one promises:

- **`autoregress`** (`autoregress.dfy`, module `Autoregress`) is an SQL function. It checks its three argument types and derives its result type. It then fills the result column in blocks of `step` rows, so that row k is `f(k, initial[k])` for the first `step` rows and `f(k, out[k - step])` after that. The lambda column is a function `f(row, value)` over a generic value type. The columns are sequences.
- **Per-query state of the native TCP handler** (`tcp_handler.dfy`, module `TcpHandler`):
  - `QueryState` with its default values, `reset()` and `empty()`;
  - the three-valued cancellation status and the only mutator the handler declares for it, `decreaseCancellationStatus`, which takes only a log message: each call lowers the status and never sets a chosen value;
  - `LastBlockInputParameters`, which outlives the per-query state;
  - the handler's single `state` field.
- **`MMappedFileDescriptor`** (`mmapped_file_descriptor.dfy`, module `MMappedFile`) maps a range of a file and keeps a files metric and a bytes metric. The model covers both `set` overloads, `finish`, the destructor and the constructors. `fstat`, `mmap` and `munmap` are abstract operations that may fail: their outcomes are parameters. A ghost flag `mapped` records whether the kernel holds the object's mapping. Each class method is proved against a step function on a `Descriptor` snapshot.
- **The pull-request gate of the CI** (`run_check.dfy`, module `RunCheck`):
  - the trust check;
  - the can-run decision;
  - the labels to add and remove;
  - the ordered exit and status decisions of `main`.

  The configuration constants are a `CiConfig` parameter. The GitHub calls are recorded in a returned `Report`.

`wrappers.dfy` holds the `Option`, `Result` and `Outcome` types that stand for the exceptions.

Where the documentation and the code disagree, the model follows the code:

- The function's documentation calls the step UInt64 and the initial value Float64. `checkArguments` demands UInt8 for the step, and Int64 or Float64 for the initial value.

## Model

| member | source | states |
|---|---|---|
| `Autoregress.CheckArguments` | src/Functions/FunctionAutoregress.cpp:24-47 | passes exactly when argument 1 is a function, argument 2 is UInt8 and argument 3 is Int64 or Float64; otherwise the first failing argument in order is reported as ILLEGAL_TYPE_OF_ARGUMENT |
| `Autoregress.GetReturnType` | src/Functions/FunctionAutoregress.cpp:169-173 | succeeds exactly on well-typed arguments, and the result type is the type of argument 3; otherwise the check's error |
| `Autoregress.GetLambdaArgumentTypes` | src/Functions/FunctionAutoregress.cpp:152-156 | on well-typed arguments the lambda's type becomes `Function(T) -> T` for the type T of argument 3, the rest is kept, and the rewritten list still passes the check and gives the same result type |
| `Autoregress.Execute` | src/Functions/FunctionAutoregress.cpp:54-95 | zero rows give an empty column; a step of 0 is refused (the correction of the finding below); a lambda result type other than the result type fails with ILLEGAL_TYPE_OF_ARGUMENT; otherwise exactly `n` rows with `out[k] = f(k, initial[k])` for `k < step` and `out[k] = f(k, out[k - step])` for `k >= step`, processed in the blocks `BlockSizes(n, step, 0)` |
| `Autoregress.EvaluateBlocks` | src/Functions/FunctionAutoregress.cpp:67-92 | the blocked loop: with a matching lambda result type it yields exactly `n` rows, each equal to its row value, and the blocks it processes are exactly `BlockSizes(n, step, 0)`; otherwise it fails on the first block; each iteration is one `LoopPass` |
| `Autoregress.LoopPass` | src/Functions/FunctionAutoregress.cpp:69-92 | one pass of the loop as written: `i` moves on by the step; the rows already produced are kept and the block's results, the lambdas applied to the current inputs, are appended; the next inputs are the first `min(step, n - i - step)` of those results when rows remain, and are left as they were otherwise |
| `Autoregress.LoopPassesComputeRows` | src/Functions/FunctionAutoregress.cpp:67-92 | with a positive step, passes of the loop as written from any state that keeps the row values end the loop with exactly `n` rows, each its row value |
| `Autoregress.LoopAsWrittenComputesRowValues` | src/Functions/FunctionAutoregress.cpp:67-92 | from the loop's first state, `n` passes of the loop as written with a positive step end the loop with every row equal to its row value, the rows `EvaluateBlocks` returns |
| `Autoregress.StepZeroNeverAdvances` | src/Functions/FunctionAutoregress.cpp:62-69 | with a step of 0 on a non-empty column, after any number of passes `i` is still 0, the loop condition still holds and no row has been produced |
| `Autoregress.OnlyLeadingInitialValuesRead` | src/Functions/FunctionAutoregress.cpp:67-77 | two initial columns that agree on their first `step` rows give the same result rows |
| `Autoregress.RecurrenceDeterminesResult` | src/Functions/FunctionAutoregress.cpp:87-92 | any column that meets the recurrence of `Execute` equals the row values, so the contract determines the result |
| `Autoregress.BlockSizesCoverRows` | src/Functions/FunctionAutoregress.cpp:67-71 | the blocks from row `i` on: none exactly when no row is left, the first has `min(step, n - i)` rows, each between 1 and `step`, and together they cover the remaining rows |
| `Autoregress.StepOneIterates` | src/Functions/FunctionAutoregress.cpp:189 | with step 1 and a lambda that ignores the row, row k is the lambda applied k + 1 times to the first initial value |
| `Autoregress.DocumentedExampleInQuarters` | src/Functions/FunctionAutoregress.cpp:189 | the documented example, counted in quarters: `x -> x + 5` from 400 over five rows gives 405, 410, 415, 420, 425 |
| `TcpHandler.Rank` | src/Server/TCPHandler.h:84-89 | the statuses are ordered FULLY_CANCELLED (0) < READ_CANCELLED (1) < NOT_CANCELLED (2) |
| `TcpHandler.Lowered` | src/Server/TCPHandler.h:317-319 | one call lowers the status strictly, or keeps it at FULLY_CANCELLED; it never raises it |
| `TcpHandler.LoweredManyDescends` | src/Server/TCPHandler.h:317-319 | a series of calls never raises the status, and each call lowers it by at least one step until FULLY_CANCELLED |
| `TcpHandler.LoweredManyMonotone` | src/Server/TCPHandler.h:84-92 | lowering preserves the order: a status at or below another stays at or below it after the same calls |
| `TcpHandler.InterleavingEndsAtOrBelowEachThread` | src/Server/TCPHandler.h:236-239 | when two threads lower the status, every interleaving ends at or below where either thread alone would leave it |
| `TcpHandler.QueryState.constructor` | src/Server/TCPHandler.h:51-122 | a new state holds every declared default: empty, NOT_CANCELLED, all flags false, no part UUIDs, compression Disable, stage Complete, `prev_elapsed_ns` 0 |
| `TcpHandler.QueryState.Reset` | src/Server/TCPHandler.h:124-127 | after `reset()` every field holds its default value |
| `TcpHandler.QueryState.Empty` | src/Server/TCPHandler.h:129-132 | returns `is_empty`, changes nothing, and is true in the default state |
| `TcpHandler.TCPHandler.constructor` | src/Server/TCPHandler.h:241-245 | the handler owns exactly one fresh, default query state, and the last block input compression is Disable |
| `TcpHandler.TCPHandler.ResetState` | src/Server/TCPHandler.h:241-245 | resetting the query state leaves the last block input parameters unchanged |
| `TcpHandler.TCPHandler.DecreaseCancellationStatus` | src/Server/TCPHandler.h:317-319 | changes only the cancellation status, which moves strictly down or stays at FULLY_CANCELLED |
| `MMappedFile.GetFileSize` | src/IO/MMappedFileDescriptor.cpp:25-37 | CANNOT_STAT when `fstat` fails, LOGICAL_ERROR on a negative size, otherwise the size |
| `MMappedFile.FinishStep` | src/IO/MMappedFileDescriptor.cpp:82-94 | with length 0 nothing changes; on a non-empty range a failing `munmap` gives CANNOT_MUNMAP with the state unchanged and a successful one succeeds; on success length is 0, nothing is mapped and both metrics are 0; the metrics keep mirroring the mapping |
| `MMappedFile.FinishIdempotent` | src/IO/MMappedFileDescriptor.cpp:82-85 | after a successful `finish()`, a second one does nothing |
| `MMappedFile.SetRangeStep` | src/IO/MMappedFileDescriptor.cpp:51-70 | releases the old mapping first (or fails with CANNOT_MUNMAP and changes nothing); records fd, offset and length; succeeds whenever the release succeeds and the range is empty or `mmap` succeeds; length 0 maps nothing and keeps the address; on success one file and `length` bytes are counted; on an `mmap` failure CANNOT_ALLOCATE_MEMORY with the new length recorded and nothing mapped |
| `MMappedFile.FailedMmapLeavesUnmappedRange` | src/IO/MMappedFileDescriptor.cpp:55-64 | after a failed `mmap`, the length is positive while nothing is mapped, the metrics are 0 and `data` still holds the previous address |
| `MMappedFile.SetToEndOfFileStepAsWritten` | src/IO/MMappedFileDescriptor.cpp:72-80 | `fstat` errors pass through; BAD_ARGUMENTS exactly when the member offset exceeds the file size; otherwise it is `set(fd, offset, file_size - member offset)`: once the old mapping is released, the recorded range starts at the argument offset and has `file_size` minus the member offset bytes, and when `mmap` succeeds (or nothing is to be mapped) it succeeds with the new fd |
| `MMappedFile.AsWrittenMapsPastEndOfFile` | src/IO/MMappedFileDescriptor.cpp:76-79 | a descriptor whose member offset is 0 maps 50 bytes from offset 100 of a 50-byte file, all of them past its end |
| `MMappedFile.SetToEndOfFileStep` | src/IO/MMappedFileDescriptor.cpp:72-80 | BAD_ARGUMENTS exactly when the requested offset exceeds the file size; otherwise it is `set(fd, offset, file_size - offset)`: the mapping starts at that offset and ends exactly at the end of the file, and when the release and `mmap` succeed (or nothing is to be mapped) it succeeds with the new fd |
| `MMappedFile.AsWrittenAgreesWhenOffsetsMatch` | src/IO/MMappedFileDescriptor.cpp:45-49 | the written and the intended `set(fd, offset)` agree when the member offset already equals the argument, as the two-argument constructor arranges |
| `MMappedFile.MMappedFileDescriptor.Unmapped` | src/IO/MMappedFileDescriptor.cpp:45-46 | the member initialisers: the given fd and offset, length 0, a null address, nothing mapped and both metrics 0 |
| `MMappedFile.MMappedFileDescriptor.Finish` | src/IO/MMappedFileDescriptor.cpp:82-94 | the object's new state and outcome are those of `FinishStep`, and the metrics keep mirroring the mapping |
| `MMappedFile.MMappedFileDescriptor.SetRange` | src/IO/MMappedFileDescriptor.cpp:51-70 | the object's new state and outcome are those of `SetRangeStep` |
| `MMappedFile.MMappedFileDescriptor.SetToEndOfFile` | src/IO/MMappedFileDescriptor.cpp:72-80 | the object's new state and outcome are those of the as-written `set(fd, offset)` |
| `MMappedFile.MMappedFileDescriptor.Destroy` | src/IO/MMappedFileDescriptor.cpp:96-99 | the process terminates exactly when `munmap` of a non-empty range fails; otherwise nothing stays mapped and both metrics are 0 |
| `MMappedFile.OpenRange` | src/IO/MMappedFileDescriptor.cpp:40-43 | constructing with a range acts as `set(fd, offset, length)` on an empty descriptor |
| `MMappedFile.OpenToEndOfFile` | src/IO/MMappedFileDescriptor.cpp:45-49 | constructing with an offset records it first, so the result is that of the intended `set(fd, offset)` and the mapping ends at the end of the file |
| `RunCheck.PrIsByTrustedUser` | tests/ci/run_check.py:32-49 | true exactly when the lower-cased login is a trusted contributor or some organisation id is trusted |
| `RunCheck.ShouldRunCiForPr` | tests/ci/run_check.py:55-72 | a release, backport or cherry-pick label always allows the run; otherwise the run is allowed exactly when the "can be tested" label is present or the author is trusted; the description is the skip, the "needs label" or the "no special conditions" one accordingly |
| `RunCheck.ComputeLabelChanges` | tests/ci/run_check.py:98-123 | the labels added and removed, built by appending, are exactly the category, submodule and backport additions and the stale-category and submodule removals |
| `RunCheck.StaleCategoryLabelsFilter` | tests/ci/run_check.py:106-112 | a label is removed as a category label exactly when it is present, is some category's label, the description's category is mapped, and the label is not that category's |
| `RunCheck.RemovedLabelsArePresent` | tests/ci/run_check.py:106-117 | every removed label is present on the pull request |
| `RunCheck.CategoryLabelAddedNotRemoved` | tests/ci/run_check.py:100-112 | the category label is added exactly when the category is mapped and the label is absent, and it is never among the removed category labels |
| `RunCheck.SubmoduleLabelAddedOrRemoved` | tests/ci/run_check.py:114-117 | the submodule label is added when submodules changed, and removed exactly when they did not and it is present |
| `RunCheck.BackportLabelsExactlyWhenAutoBackport` | tests/ci/run_check.py:119-123 | backport labels are added only when some label being added is an auto-backport label, and then each of the two that is absent is added, and only those |
| `RunCheck.AddedAndRemovedAreDisjoint` | tests/ci/run_check.py:98-123 | no label is both added and removed, provided the submodule label is not a category label |
| `RunCheck.RunMain` | tests/ci/run_check.py:78-197 | PR number 0 exits 1; a special pull request exits 0 at once; a non-empty description error exits 1 with a single FAILURE status linking the template, before the documentation check; otherwise the first status is the PR check with an empty URL: FAILURE "expect adding docs" for a feature label without documentation, else SUCCESS with the can-run description; "cannot run" exits 1 with that single status; otherwise exit 0 and, outside the merge queue, a pending CI status follows |

## Findings

| source | as written | input that shows it | evidently intended | confidence | as-written member | corrected member |
|---|---|---|---|---|---|---|
| src/IO/MMappedFileDescriptor.cpp:76-79 | `set(fd, offset_)` checks the member `offset` against the file size and maps `file_size - offset` bytes, while the mapping starts at the argument `offset_` | a descriptor whose member offset is 0 is asked to map a 50-byte file from offset 100: the check passes and 50 bytes past the end of the file are mapped | check and size with the argument: BAD_ARGUMENTS when `offset_ > file_size`, otherwise map `file_size - offset_` bytes | medium: the only caller in MMappedFileDescriptor.cpp (the two-argument constructor) stores the argument first, so the two agree there; not executed | `MMappedFile.SetToEndOfFileStepAsWritten` (shown by `MMappedFile.AsWrittenMapsPastEndOfFile`) | `MMappedFile.SetToEndOfFileStep` |
| src/Functions/FunctionAutoregress.cpp:62-92 | a backward step of 0 is accepted: `lambda_inputs` is cut to 0 rows, every pass processes an empty block, and `i += backward_step` leaves `i` at 0 | a step column whose row 0 is 0, over a non-empty block, with a lambda whose result type matches: the loop never ends | refuse a step of 0 before the loop | high: the loop has no other exit; not executed | `Autoregress.StepZeroNeverAdvances` (over `Autoregress.LoopPasses`) | `Autoregress.Execute` |

The class method `MMappedFile.MMappedFileDescriptor.SetToEndOfFile` keeps the code as written. The constructor `MMappedFile.OpenToEndOfFile` is specified with the corrected function. `MMappedFile.AsWrittenAgreesWhenOffsetsMatch` shows that the two agree there. `Autoregress.Execute` refuses a step of 0 before it enters the blocked loop, `Autoregress.EvaluateBlocks`, which then always has a positive step.

## Left out

- The TCP protocol loop, packet I/O, the handshake, sockets, timeouts and the Stopwatch timing. The header only declares them; their bodies are not part of this model.
- The `out_mutex` and `task_callback_mutex` discipline. Its point is concurrency. `TcpHandler.InterleavingEndsAtOrBelowEachThread` states the cancellation consequence on sequences of calls instead.
- The `QueryState` fields that are pointers, blocks or library objects: log and profile queues and writers, readers, writers, blocks, the parsed query, `BlockIO`, `Progress`, the stopwatch and the timeout setter. Their definitions live in TCPHandler.cpp and other files outside this model.
- `getQueryCancellationStatus` and `updateProgress`. Their definitions live in TCPHandler.cpp, outside this model.
- TcpHandler.TCPHandler.DecreaseCancellationStatus: its body is not part of this model. How far a first cancellation lowers the status is the parameter `readOnlyFirst`. The contract states only what the declaration fixes: the status moves down and never rises.
- Autoregress.Execute: refuses a step of 0 with its own error, `ZeroBackwardStep`, where the code as written loops forever when the lambda's result type matches (see "## Findings"); the error code of that refusal is a choice of this model. When the lambda's result type does not match, the code as written runs one empty block and throws ILLEGAL_TYPE_OF_ARGUMENT; with a step of 0 the model reports `ZeroBackwardStep` instead.
- Autoregress.Execute: the value type is generic. Float64 arithmetic, such as the documented `x + 1.25`, is not modelled. The documented example is restated in integer quarters.
- The ColumnFunction library calls (`cut`, `appendArguments`, `reduce`, `convertToFullIfNeeded`). They become sequence slicing and the function `f`. The lambda's result type is a parameter, `lambdaResultType`.
- `FunctionAutoregress`, `prepare`, `buildImpl` and the function registration. These are glue. The check that `buildImpl` repeats is covered by `Autoregress.GetLambdaArgumentTypes`.
- MMappedFileDescriptor.h is not part of this model. The descriptor starts with length 0 and a null `data` address, as `finish()` at the head of `set` requires.
- The real `mmap`, `munmap` and `fstat` system calls and the CurrentMetrics implementation. They become fallible outcomes given as parameters, and two counters per object.
- RunCheck.PrIsByTrustedUser: lower-cases ASCII letters only. Python's `str.lower()` also folds letters of other scripts.
- The GitHub API calls, logging, `print` and `sys.exit` in `run_check.py`. Labels posted and removed, commit statuses and the exit code are returned in a `Report`.
- `format_description`, `Utils.check_pr_description` and `create_ci_report` are not part of this model. They are parameters: a description formatter, a `DescriptionCheck` and a report URL.
- The posting of a pending CI status after a successful run depends on `is_merge_queue` and is recorded. Nothing after the last status is modelled.
- The labels of a pull request are a sequence in iteration order. `PRInfo` is not part of this model.
- src/Processors/QueryPlan/JoinStep.cpp, src/DataTypes/DataTypeDomainBool.cpp, src/Interpreters/SubstituteColumnOptimizer.h, src/Processors/QueryPlan/ShuffleStep.h and src/Processors/QueryPlan/ArrayJoinStep.h are glue, a factory registration and declarations, with no behaviour to state.
