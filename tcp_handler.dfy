/** The per-query state of the native TCP protocol handler, its cancellation
    status and the parameters the handler keeps across queries. */
module TcpHandler {
  import opened Wrappers

  /** `Protocol::Compression`. */
  datatype Compression = Disable | Enable

  /** `QueryProcessingStage::Enum`: complete, or one of the intermediate stages. */
  datatype ProcessingStage = Complete | Intermediate(stage: nat)

  type Uuid = nat

  /** `QueryState::CancellationStatus`, declared in the order
      FULLY_CANCELLED (0) < READ_CANCELLED (1) < NOT_CANCELLED (2). */
  datatype CancellationStatus = FullyCancelled | ReadCancelled | NotCancelled

  /** The underlying value of each status. */
  function Rank(s: CancellationStatus): (r: nat)
    ensures r <= 2
    ensures s == FullyCancelled <==> r == 0
    ensures s == NotCancelled <==> r == 2
  {
    match s
    case FullyCancelled => 0
    case ReadCancelled => 1
    case NotCancelled => 2
  }

  /** One call of `decreaseCancellationStatus`. The call carries no target
      status; whether a first cancellation stops only the reading of client
      data is the connection's policy, `readOnlyFirst`. Every call lowers the
      status, or keeps it at FULLY_CANCELLED, and never raises it. */
  function Lowered(s: CancellationStatus, readOnlyFirst: bool): (r: CancellationStatus)
    ensures Rank(r) < Rank(s) || r == s == FullyCancelled
    ensures s == FullyCancelled ==> r == FullyCancelled
  {
    if s == NotCancelled && readOnlyFirst then ReadCancelled else FullyCancelled
  }

  /** The status after a series of calls, one policy flag per call. */
  function LoweredMany(s: CancellationStatus, calls: seq<bool>): CancellationStatus
    decreases |calls|
  {
    if calls == [] then s else LoweredMany(Lowered(s, calls[0]), calls[1..])
  }

  /** A series of calls never raises the status, and each call lowers it by
      at least one step until it reaches FULLY_CANCELLED. */
  lemma {:induction false} LoweredManyDescends(s: CancellationStatus, calls: seq<bool>)
    ensures Rank(LoweredMany(s, calls)) <= Rank(s)
    ensures |calls| >= Rank(s) ==> LoweredMany(s, calls) == FullyCancelled
    ensures |calls| < Rank(s) ==> Rank(LoweredMany(s, calls)) <= Rank(s) - |calls|
    decreases |calls|
  {
    if calls != [] {
      LoweredManyDescends(Lowered(s, calls[0]), calls[1..]);
    }
  }

  /** Lowering preserves the order: a lower status stays at or below. */
  lemma {:induction false} LoweredManyMonotone(s: CancellationStatus, t: CancellationStatus, calls: seq<bool>)
    requires Rank(s) <= Rank(t)
    ensures Rank(LoweredMany(s, calls)) <= Rank(LoweredMany(t, calls))
    decreases |calls|
  {
    if calls != [] {
      LoweredManyMonotone(Lowered(s, calls[0]), Lowered(t, calls[0]), calls[1..]);
    }
  }

  /** `merged` interleaves the calls of two threads, keeping each thread's order. */
  predicate Interleaves(merged: seq<bool>, a: seq<bool>, b: seq<bool>)
    decreases |merged|
  {
    if merged == [] then a == [] && b == []
    else
      || (a != [] && merged[0] == a[0] && Interleaves(merged[1..], a[1..], b))
      || (b != [] && merged[0] == b[0] && Interleaves(merged[1..], a, b[1..]))
  }

  /** Two threads lowering the status concurrently: whatever the interleaving,
      the status ends at or below where either thread alone would have left it. */
  lemma {:induction false} InterleavingEndsAtOrBelowEachThread(
    s: CancellationStatus, merged: seq<bool>, a: seq<bool>, b: seq<bool>)
    requires Interleaves(merged, a, b)
    ensures Rank(LoweredMany(s, merged)) <= Rank(LoweredMany(s, a))
    ensures Rank(LoweredMany(s, merged)) <= Rank(LoweredMany(s, b))
    decreases |merged|
  {
    if merged != [] {
      var s' := Lowered(s, merged[0]);
      InterleavingEndsAtOrBelowEachThread(s', merged[1..],
        if a != [] && merged[0] == a[0] && Interleaves(merged[1..], a[1..], b) then a[1..] else a,
        if a != [] && merged[0] == a[0] && Interleaves(merged[1..], a[1..], b) then b else b[1..]);
      if a != [] && merged[0] == a[0] && Interleaves(merged[1..], a[1..], b) {
        LoweredManyMonotone(s', s, b);
      } else {
        LoweredManyMonotone(s', s, a);
      }
    }
  }

  /** `QueryState`: the state of the one query in progress on a connection.
      Queues, readers, writers, blocks, the parsed query, the pipeline, the
      progress counters, the stopwatch and the timeout setter are not part of
      this model. */
  class QueryState {
    var queryId: string
    var stage: ProcessingStage
    var compression: Compression
    var query: string
    var cancellationStatus: CancellationStatus
    var isConnectionClosed: bool
    var isEmpty: bool
    var sentAllData: bool
    var needReceiveDataForInsert: bool
    var readAllData: bool
    var partUuidsToIgnore: Option<seq<Uuid>>
    var needReceiveDataForInput: bool
    var skippingData: bool
    var prevElapsedNs: nat

    /** Every field holds its declared default value. */
    ghost predicate IsDefault()
      reads this
    {
      && queryId == ""
      && stage == Complete
      && compression == Disable
      && query == ""
      && cancellationStatus == NotCancelled
      && !isConnectionClosed
      && isEmpty
      && !sentAllData
      && !needReceiveDataForInsert
      && !readAllData
      && partUuidsToIgnore == None
      && !needReceiveDataForInput
      && !skippingData
      && prevElapsedNs == 0
    }

    /** A default-constructed state. */
    constructor ()
      ensures IsDefault()
    {
      queryId, stage, compression, query := "", Complete, Disable, "";
      cancellationStatus := NotCancelled;
      isConnectionClosed, isEmpty, sentAllData := false, true, false;
      needReceiveDataForInsert, readAllData := false, false;
      partUuidsToIgnore := None;
      needReceiveDataForInput, skippingData := false, false;
      prevElapsedNs := 0;
    }

    /** `reset()`: the state becomes equal to a default-constructed one. */
    method Reset()
      modifies this
      ensures IsDefault()
    {
      queryId, stage, compression, query := "", Complete, Disable, "";
      cancellationStatus := NotCancelled;
      isConnectionClosed, isEmpty, sentAllData := false, true, false;
      needReceiveDataForInsert, readAllData := false, false;
      partUuidsToIgnore := None;
      needReceiveDataForInput, skippingData := false, false;
      prevElapsedNs := 0;
    }

    /** `empty()`: whether the state is empty; it changes nothing. */
    method Empty() returns (r: bool)
      ensures r <==> isEmpty
      ensures IsDefault() ==> r
    {
      r := isEmpty;
    }
  }

  /** `LastBlockInputParameters`: the compression of the last query's input,
      kept to decode data that arrives after an exception. */
  datatype LastBlockInputParameters = LastBlockInputParameters(compression: Compression)

  /** The part of `TCPHandler` that holds per-query state: exactly one
      `QueryState` for the lifetime of the connection, and the last block
      input parameters beside it. */
  class TCPHandler {
    const state: QueryState
    var lastBlockIn: LastBlockInputParameters

    constructor ()
      ensures fresh(state) && state.IsDefault()
      ensures lastBlockIn == LastBlockInputParameters(Disable)
    {
      state := new QueryState();
      lastBlockIn := LastBlockInputParameters(Disable);
    }

    /** Resetting the query state leaves the last block input parameters alone. */
    method ResetState()
      modifies state
      ensures state.IsDefault()
      ensures lastBlockIn == old(lastBlockIn)
    {
      state.Reset();
    }

    /** `decreaseCancellationStatus`: lowers the status of the current query
      and changes nothing else. */
    method DecreaseCancellationStatus(readOnlyFirst: bool)
      modifies state`cancellationStatus
      ensures state.cancellationStatus == Lowered(old(state.cancellationStatus), readOnlyFirst)
      ensures Rank(state.cancellationStatus) < Rank(old(state.cancellationStatus))
              || state.cancellationStatus == old(state.cancellationStatus) == FullyCancelled
    {
      state.cancellationStatus := Lowered(state.cancellationStatus, readOnlyFirst);
    }
  }
}
