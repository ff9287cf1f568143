/**
 * ProbeBulkFileListener.kt: every file-system event of a batch is handed to
 * the coordinator, in order, to be classified as AI or human by timing.
 */
module ProbeBulkFileListener {
  import opened Wrappers
  import opened Coordinator
  import opened CoordinatorProperties

  /** The kinds of virtual-file events the IDE delivers. */
  datatype EventKind = ContentChange | Create | Copy | Move | Delete | PropertyChange

  /** A virtual-file event: its path, its kind, whether it came from a refresh, and who asked for it. */
  datatype FileEvent = FileEvent(path: string, kind: EventKind, isFromRefresh: bool, requestor: Option<string>)

  /** `isHumanFileAction`: every event is forwarded, refreshes included. */
  predicate IsHumanFileAction(event: FileEvent) {
    true
  }

  /** The coordinator calls a batch makes, one per forwarded event, at the times it was handled. */
  function ForwardedCalls(events: seq<FileEvent>, times: seq<int>): seq<Timed>
    requires |times| == |events|
    decreases |events|
  {
    if events == [] then []
    else
      var n := |events| - 1;
      ForwardedCalls(events[..n], times[..n]) +
        (if IsHumanFileAction(events[n]) then [Timed(FileChanged(events[n].path), times[n])] else [])
  }

  /** No event is filtered: the calls are the events' paths, one each, in order. */
  lemma {:induction false} EveryEventIsForwarded(events: seq<FileEvent>, times: seq<int>)
    requires |times| == |events|
    ensures |ForwardedCalls(events, times)| == |events|
    ensures forall i :: 0 <= i < |events| ==>
      ForwardedCalls(events, times)[i] == Timed(FileChanged(events[i].path), times[i])
    decreases |events|
  {
    if events != [] {
      var n := |events| - 1;
      EveryEventIsForwarded(events[..n], times[..n]);
    }
  }

  /** The handling times never go back and start no earlier than `start`. */
  predicate MonotoneTimes(start: int, times: seq<int>) {
    && (forall i :: 0 <= i < |times| ==> start <= times[i])
    && (forall i, j :: 0 <= i < j < |times| ==> times[i] <= times[j])
  }

  /** `after`: hand each event of the batch to the coordinator; `times[i]` is when event `i` is handled. */
  method After(manager: CheckpointManager, events: seq<FileEvent>, times: seq<int>)
    requires manager.Valid() && |times| == |events| && MonotoneTimes(manager.clock, times)
    modifies manager
    ensures manager.Valid()
    ensures manager.State() == Run(old(manager.State()), ForwardedCalls(events, times))
  {
    for i := 0 to |events|
      invariant manager.Valid()
      invariant forall k :: i <= k < |times| ==> manager.clock <= times[k]
      invariant manager.State() == Run(old(manager.State()), ForwardedCalls(events[..i], times[..i]))
    {
      var event := events[i];
      ForwardedCallsNext(events, times, i);
      RunLast(old(manager.State()), ForwardedCalls(events[..i], times[..i]), Timed(FileChanged(event.path), times[i]));
      if IsHumanFileAction(event) {
        TriggerCheckpointHuman(manager, event.path, times[i]);
      }
    }
    assert events[..|events|] == events && times[..|times|] == times;
  }

  /** Handling one more event of the batch adds its call. */
  lemma ForwardedCallsNext(events: seq<FileEvent>, times: seq<int>, i: nat)
    requires |times| == |events| && i < |events|
    ensures ForwardedCalls(events[..i + 1], times[..i + 1]) ==
      ForwardedCalls(events[..i], times[..i]) + [Timed(FileChanged(events[i].path), times[i])]
  {
    assert events[..i + 1][..i] == events[..i] && times[..i + 1][..i] == times[..i];
  }

  /** `triggerCheckpointHuman`: delegate to the coordinator. */
  method TriggerCheckpointHuman(manager: CheckpointManager, path: string, now: int)
    requires manager.Valid() && manager.clock <= now
    modifies manager
    ensures manager.Valid()
    ensures manager.State() == FileChangeStep(old(manager.State()), path, now)
  {
    manager.HandleFileChange(path, now);
  }

  /** The AI jobs a batch enqueues when every event falls inside the AI window. */
  function AiJobsFor(events: seq<FileEvent>, times: seq<int>): seq<AiJob>
    requires |times| == |events|
  {
    seq(|events|, i requires 0 <= i < |events| => AiJob(Some(events[i].path), times[i]))
  }

  /**
   * A batch handled within the AI signal window queues one AI job per event,
   * in order, cancels any pending human task, and writes no checkpoint itself.
   */
  lemma {:induction false} CorrelatedBatchQueuesEveryFile(e: Engine, events: seq<FileEvent>, times: seq<int>)
    requires |times| == |events| && |events| > 0
    requires forall i :: 0 <= i < |times| ==> times[i] - e.lastAiSignalTime < AI_SIGNAL_WINDOW_MS
    ensures Run(e, ForwardedCalls(events, times)).queue == e.queue + AiJobsFor(events, times)
    ensures Run(e, ForwardedCalls(events, times)).pendingHumanTask == None
    ensures Run(e, ForwardedCalls(events, times)).log == e.log
    ensures Run(e, ForwardedCalls(events, times)).lastAiSignalTime == e.lastAiSignalTime
    decreases |events|
  {
    var n := |events| - 1;
    var prefix := ForwardedCalls(events[..n], times[..n]);
    var x := Timed(FileChanged(events[n].path), times[n]);
    assert ForwardedCalls(events, times) == prefix + [x];
    RunLast(e, prefix, x);
    if n == 0 {
      assert prefix == [];
    } else {
      CorrelatedBatchQueuesEveryFile(e, events[..n], times[..n]);
      assert AiJobsFor(events, times) == AiJobsFor(events[..n], times[..n]) + [AiJob(Some(events[n].path), times[n])];
    }
  }

  /**
   * A batch handled outside the AI window leaves the AI queue alone and
   * leaves one human request, at the last event's debounce deadline, unless
   * the grace period swallows it.
   */
  lemma {:induction false} UncorrelatedBatchSchedulesHuman(e: Engine, events: seq<FileEvent>, times: seq<int>)
    requires |times| == |events| && |events| > 0
    requires forall i :: 0 <= i < |times| ==> times[i] - e.lastAiSignalTime >= AI_SIGNAL_WINDOW_MS
    requires times[|times| - 1] - e.lastAiCheckpointTime >= AI_GRACE_PERIOD_MS
    ensures Run(e, ForwardedCalls(events, times)).queue == e.queue
    ensures Run(e, ForwardedCalls(events, times)).pendingHumanTask == Some(times[|times| - 1] + HUMAN_DEBOUNCE_MS)
    ensures Run(e, ForwardedCalls(events, times)).log == e.log
  {
    var n := |events| - 1;
    var prefix := ForwardedCalls(events[..n], times[..n]);
    var x := Timed(FileChanged(events[n].path), times[n]);
    assert ForwardedCalls(events, times) == prefix + [x];
    RunLast(e, prefix, x);
    UncorrelatedPrefixKeepsQueue(e, events[..n], times[..n]);
  }

  lemma {:induction false} UncorrelatedPrefixKeepsQueue(e: Engine, events: seq<FileEvent>, times: seq<int>)
    requires |times| == |events|
    requires forall i :: 0 <= i < |times| ==> times[i] - e.lastAiSignalTime >= AI_SIGNAL_WINDOW_MS
    ensures Run(e, ForwardedCalls(events, times)).queue == e.queue
    ensures Run(e, ForwardedCalls(events, times)).log == e.log
    ensures Run(e, ForwardedCalls(events, times)).lastAiSignalTime == e.lastAiSignalTime
    ensures Run(e, ForwardedCalls(events, times)).lastAiCheckpointTime == e.lastAiCheckpointTime
    decreases |events|
  {
    if events != [] {
      var n := |events| - 1;
      var prefix := ForwardedCalls(events[..n], times[..n]);
      var x := Timed(FileChanged(events[n].path), times[n]);
      assert ForwardedCalls(events, times) == prefix + [x];
      RunLast(e, prefix, x);
      UncorrelatedPrefixKeepsQueue(e, events[..n], times[..n]);
    }
  }
}
